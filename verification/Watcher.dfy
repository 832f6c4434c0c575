/** Edge detection over status polls: when the grill prompt is raised, and that it never nags;
    and terminal notifications, once per terminal identity. */
module Watcher {
  import opened Sequences
  import opened Wrappers

  datatype NodeState = NodeState(node: string, state: string)

  type Snapshot = seq<NodeState>

  datatype Registry = Registry(order: seq<string>, interactive: set<string>)

  // ----- diffBlocked

  /** A `Map` built from pairs keeps the last state of a repeated node. */
  function LastState(s: Snapshot, node: string): Option<string> {
    if s == [] then None
    else if s[|s| - 1].node == node then Some(s[|s| - 1].state)
    else LastState(s[..|s| - 1], node)
  }

  /** `find` returns the first. */
  function FirstState(s: Snapshot, node: string): Option<string> {
    if s == [] then None else if s[0].node == node then Some(s[0].state) else FirstState(s[1..], node)
  }

  predicate Blocked(s: Snapshot, node: string) {
    LastState(s, node) == Some("blocked")
  }

  function NewlyBlocked(prev: Snapshot, next: Snapshot, interactive: set<string>): string -> bool {
    (id: string) => id in interactive && Blocked(next, id) && !Blocked(prev, id)
  }

  function Transitions(prev: Snapshot, next: Snapshot, registry: Registry): seq<string> {
    Filter(NewlyBlocked(prev, next, registry.interactive), registry.order)
  }

  function Get(m: map<string, string>, k: string): Option<string> {
    if k in m then Some(m[k]) else None
  }

  method MapOf(s: Snapshot) returns (m: map<string, string>)
    ensures forall node :: Get(m, node) == LastState(s, node)
  {
    m := map[];
    for i := 0 to |s|
      invariant forall node :: Get(m, node) == LastState(s[..i], node)
    {
      assert s[..i + 1][..i] == s[..i];
      m := m[s[i].node := s[i].state];
    }
    assert s[..|s|] == s;
  }

  method DiffBlocked(prev: Snapshot, next: Snapshot, registry: Registry) returns (out: seq<string>)
    ensures out == Transitions(prev, next, registry)
  {
    var prevMap := MapOf(prev);
    var nextMap := MapOf(next);
    var p := NewlyBlocked(prev, next, registry.interactive);
    out := [];
    for i := 0 to |registry.order|
      invariant out == Filter(p, registry.order[..i])
    {
      var id := registry.order[i];
      assert registry.order[..i + 1] == registry.order[..i] + [id];
      FilterSnoc(p, registry.order[..i], id);
      assert Get(prevMap, id) == LastState(prev, id) && Get(nextMap, id) == LastState(next, id);
      if id in registry.interactive && Get(nextMap, id) == Some("blocked") && Get(prevMap, id) != Some("blocked") {
        out := out + [id];
      }
    }
    assert registry.order[..|registry.order|] == registry.order;
  }

  // ----- The step system

  const GRILL := "grill"

  datatype Record = Record(session: string, pipeline: Snapshot)

  datatype Choice = GrillNow | Skip | Cancelled

  /** What can happen, in any order: mission control opens and makes its opening check; one of its
      watchers polls on the interval; an open prompt resolves; some result file is written. Every
      check reads the status once for itself and once more for the offer. */
  datatype Step =
    | OpenControl(seen: Option<Record>, offerFor: Option<Record>)
    | Poll(watcher: nat, seen: Option<Record>, offerFor: Option<Record>)
    | Resolve(i: nat, choice: Choice)
    | WriteResult(session: string)

  /** An open prompt, with the watcher whose opening check awaits it, if one does. */
  datatype Prompt = Prompt(session: string, opener: Option<nat>)

  /** A watcher starts its interval once its opening check is done: while it is waiting it does not poll. */
  datatype State = State(
    offered: set<string>, results: set<string>, watchers: seq<map<string, Snapshot>>, waiting: set<nat>,
    prompts: seq<Prompt>)

  const START := State({}, {}, [], {}, [])

  predicate IsCheck(step: Step) {
    step.OpenControl? || step.Poll?
  }

  /** The watcher that makes the check, when one more is opened after `count` others. */
  function Checker(step: Step, count: nat): nat
    requires IsCheck(step)
  {
    if step.OpenControl? then count else step.watcher
  }

  predicate Runs(s: State, step: Step) {
    step.OpenControl? || (step.Poll? && step.watcher < |s.watchers| && step.watcher !in s.waiting)
  }

  function LastSeen(s: State, w: nat, session: string): Snapshot {
    if w < |s.watchers| && session in s.watchers[w] then s.watchers[w][session] else []
  }

  predicate SeesTransition(last: Snapshot, seen: Option<Record>, registry: Registry) {
    seen != None && GRILL in Transitions(last, seen.value.pipeline, registry)
  }

  predicate MayOffer(s: State, rec: Option<Record>) {
    && rec != None && FirstState(rec.value.pipeline, GRILL) == Some("blocked")
    && rec.value.session !in s.results && rec.value.session !in s.offered
  }

  /** The session a check raises a prompt for. */
  function Raised(s: State, step: Step, registry: Registry): Option<string> {
    if && Runs(s, step) && step.seen != None
       && SeesTransition(LastSeen(s, Checker(step, |s.watchers|), step.seen.value.session), step.seen, registry)
       && MayOffer(s, step.offerFor)
    then Some(step.offerFor.value.session)
    else None
  }

  function Saw(m: map<string, Snapshot>, seen: Option<Record>): map<string, Snapshot> {
    if seen == None then m else m[seen.value.session := seen.value.pipeline]
  }

  function Opening(raised: Option<string>, opener: Option<nat>): seq<Prompt> {
    if raised == None then [] else [Prompt(raised.value, opener)]
  }

  function Without(prompts: seq<Prompt>, i: nat): seq<Prompt>
    requires i < |prompts|
  {
    prompts[..i] + prompts[i + 1..]
  }

  function Do(s: State, step: Step, registry: Registry): State {
    match step
    case OpenControl(seen, _) =>
      var (w, raised) := (|s.watchers|, Raised(s, step, registry));
      s.(watchers := s.watchers + [Saw(map[], seen)],
         waiting := if raised == None then s.waiting else s.waiting + {w},
         prompts := s.prompts + Opening(raised, Some(w)))
    case Poll(w, seen, _) =>
      if !Runs(s, step) then s
      else
        s.(watchers := s.watchers[w := Saw(s.watchers[w], seen)],
           prompts := s.prompts + Opening(Raised(s, step, registry), None))
    case Resolve(i, choice) =>
      if i >= |s.prompts| then s
      else
        var p := s.prompts[i];
        s.(prompts := Without(s.prompts, i),
           waiting := if p.opener == None then s.waiting else s.waiting - {p.opener.value},
           offered := s.offered + {p.session},
           results := if choice == Skip then s.results + {p.session} else s.results)
    case WriteResult(session) => s.(results := s.results + {session})
  }

  function Run(steps: seq<Step>, registry: Registry): State {
    if steps == [] then START else Do(Run(steps[..|steps| - 1], registry), steps[|steps| - 1], registry)
  }

  // ----- What the history says

  function Opened(steps: seq<Step>): nat {
    if steps == [] then 0
    else Opened(steps[..|steps| - 1]) + if steps[|steps| - 1].OpenControl? then 1 else 0
  }

  /** The prompt a step answers, skips or cancels. */
  function Answered(before: seq<Step>, last: Step, registry: Registry): Option<Prompt> {
    var prompts := Run(before, registry).prompts;
    if last.Resolve? && last.i < |prompts| then Some(prompts[last.i]) else None
  }

  /** The watcher's opening check raised a prompt that is still open. */
  predicate Awaits(steps: seq<Step>, w: nat, registry: Registry) {
    steps != [] &&
    (var (before, last) := (steps[..|steps| - 1], steps[|steps| - 1]);
     if last.OpenControl? && Opened(before) == w then Raised(Run(before, registry), last, registry) != None
     else
       && Awaits(before, w, registry)
       && !(Answered(before, last, registry) != None && Answered(before, last, registry).value.opener == Some(w)))
  }

  /** After `before`, the step is a check made by watcher `w`: its opening one, or a poll once that is done. */
  predicate ChecksNow(before: seq<Step>, last: Step, w: nat, registry: Registry) {
    || (last.OpenControl? && Opened(before) == w)
    || (last.Poll? && last.watcher == w && w < Opened(before) && !Awaits(before, w, registry))
  }

  /** What watcher `w` saw of a session when it last checked it. */
  function PreviousPoll(steps: seq<Step>, w: nat, session: string, registry: Registry): Snapshot {
    if steps == [] then []
    else
      var (before, last) := (steps[..|steps| - 1], steps[|steps| - 1]);
      if ChecksNow(before, last, w, registry) && last.seen != None && last.seen.value.session == session
      then last.seen.value.pipeline
      else PreviousPoll(before, w, session, registry)
  }

  function Raises(steps: seq<Step>, session: string, registry: Registry): nat {
    if steps == [] then 0
    else
      var before := steps[..|steps| - 1];
      Raises(before, session, registry) +
      if Raised(Run(before, registry), steps[|steps| - 1], registry) == Some(session) then 1 else 0
  }

  predicate Settles(before: seq<Step>, last: Step, session: string, registry: Registry) {
    Answered(before, last, registry) != None && Answered(before, last, registry).value.session == session
  }

  function Resolutions(steps: seq<Step>, session: string, registry: Registry): nat {
    if steps == [] then 0
    else
      var (before, last) := (steps[..|steps| - 1], steps[|steps| - 1]);
      Resolutions(before, session, registry) + if Settles(before, last, session, registry) then 1 else 0
  }

  predicate ResultExists(steps: seq<Step>, session: string, registry: Registry) {
    steps != [] &&
    (var (before, last) := (steps[..|steps| - 1], steps[|steps| - 1]);
     || ResultExists(before, session, registry)
     || last == WriteResult(session)
     || (Settles(before, last, session, registry) && last.choice == Skip))
  }

  // ----- The state remembers the history

  function SessionOf(): Prompt -> seq<string> {
    (p: Prompt) => [p.session]
  }

  /** How many prompts of the session are open. */
  function OpenOf(prompts: seq<Prompt>, session: string): nat {
    multiset(FlatMap(SessionOf(), prompts))[session]
  }

  lemma OpenedOneMore(prompts: seq<Prompt>, raised: Option<string>, opener: Option<nat>, session: string)
    ensures OpenOf(prompts + Opening(raised, opener), session) ==
            OpenOf(prompts, session) + if raised == Some(session) then 1 else 0
  {
    if raised == None {
      assert prompts + [] == prompts;
    } else {
      assert (prompts + [Prompt(raised.value, opener)])[..|prompts|] == prompts;
    }
  }

  lemma ClosedOne(prompts: seq<Prompt>, i: nat, session: string)
    requires i < |prompts|
    ensures OpenOf(prompts, session) ==
            OpenOf(Without(prompts, i), session) + if prompts[i].session == session then 1 else 0
  {
    assert prompts == prompts[..i] + [prompts[i]] + prompts[i + 1..];
    FlatMapWithout(SessionOf(), prompts[..i], prompts[i], prompts[i + 1..]);
  }

  lemma StepBalances(s: State, step: Step, registry: Registry, session: string)
    ensures OpenOf(Do(s, step, registry).prompts, session) ==
            OpenOf(s.prompts, session)
            + (if Raised(s, step, registry) == Some(session) then 1 else 0)
            - (if step.Resolve? && step.i < |s.prompts| && s.prompts[step.i].session == session then 1 else 0)
  {
    match step
    case OpenControl(_, _) =>
      OpenedOneMore(s.prompts, Raised(s, step, registry), Some(|s.watchers|), session);
    case Poll(_, _, _) =>
      if Runs(s, step) {
        OpenedOneMore(s.prompts, Raised(s, step, registry), None, session);
      }
    case Resolve(i, _) =>
      if i < |s.prompts| {
        ClosedOne(s.prompts, i, session);
      }
    case WriteResult(_) =>
  }

  /** The open prompts are those raised and not resolved; the guard sets record exactly the
      resolved sessions and the existing results. */
  lemma {:induction false} PromptsBalance(steps: seq<Step>, registry: Registry, session: string) returns (s: State)
    ensures s == Run(steps, registry)
    ensures OpenOf(s.prompts, session) == Raises(steps, session, registry) - Resolutions(steps, session, registry)
    ensures session in s.offered <==> Resolutions(steps, session, registry) > 0
    ensures session in s.results <==> ResultExists(steps, session, registry)
  {
    s := START;
    if steps != [] {
      var before := PromptsBalance(steps[..|steps| - 1], registry, session);
      StepBalances(before, steps[|steps| - 1], registry, session);
      s := Do(before, steps[|steps| - 1], registry);
    }
  }

  lemma {:induction false} WaitingIs(steps: seq<Step>, registry: Registry, w: nat) returns (s: State)
    ensures s == Run(steps, registry) && |s.watchers| == Opened(steps)
    ensures forall v :: v in s.waiting ==> v < |s.watchers|
    ensures w in s.waiting <==> Awaits(steps, w, registry)
  {
    s := START;
    if steps != [] {
      var before := WaitingIs(steps[..|steps| - 1], registry, w);
      s := Do(before, steps[|steps| - 1], registry);
    }
  }

  lemma {:induction false} WatchersRemember(steps: seq<Step>, registry: Registry, w: nat, session: string)
    returns (s: State)
    ensures s == Run(steps, registry)
    ensures LastSeen(s, w, session) == PreviousPoll(steps, w, session, registry)
  {
    s := START;
    if steps != [] {
      var (front, last) := (steps[..|steps| - 1], steps[|steps| - 1]);
      var before := WatchersRemember(front, registry, w, session);
      var again := WaitingIs(front, registry, w);
      s := Do(before, last, registry);
      CheckIsRemembered(before, last, registry, w, session);
    }
  }

  lemma CheckIsRemembered(s: State, step: Step, registry: Registry, w: nat, session: string)
    ensures LastSeen(Do(s, step, registry), w, session) ==
            if IsCheck(step) && Runs(s, step) && Checker(step, |s.watchers|) == w && step.seen != None
               && step.seen.value.session == session
            then step.seen.value.pipeline
            else LastSeen(s, w, session)
  {
  }

  // ----- When a prompt is raised

  /** The step is a check that sees the grill blocked, which the same watcher's previous check of
      that session did not; and the record read for the offer is the session's, blocked too, with
      no result and no prompt resolved before. */
  predicate MeetsEdge(steps: seq<Step>, step: Step, session: string, registry: Registry) {
    && IsCheck(step) && step.seen != None && step.offerFor != None && step.offerFor.value.session == session
    && (var w := Checker(step, Opened(steps));
        && ChecksNow(steps, step, w, registry)
        && !Blocked(PreviousPoll(steps, w, step.seen.value.session, registry), GRILL))
    && GRILL in registry.order && GRILL in registry.interactive && Blocked(step.seen.value.pipeline, GRILL)
    && FirstState(step.offerFor.value.pipeline, GRILL) == Some("blocked")
    && !ResultExists(steps, session, registry)
    && Resolutions(steps, session, registry) == 0
  }

  lemma SeesExactly(last: Snapshot, seen: Option<Record>, registry: Registry)
    ensures SeesTransition(last, seen, registry) <==>
            && seen != None && GRILL in registry.order && GRILL in registry.interactive
            && Blocked(seen.value.pipeline, GRILL) && !Blocked(last, GRILL)
  {
    if seen != None {
      FilterMembers(NewlyBlocked(last, seen.value.pipeline, registry.interactive), registry.order, GRILL);
    }
  }

  /** In every interleaving a prompt of a session is raised exactly by the checks that meet the edge. */
  lemma RaisedExactlyOnEdges(steps: seq<Step>, registry: Registry, step: Step, session: string)
    ensures Raised(Run(steps, registry), step, registry) == Some(session) <==> MeetsEdge(steps, step, session, registry)
  {
    if IsCheck(step) && step.seen != None && step.offerFor != None {
      var w := Checker(step, Opened(steps));
      var s := WatchersRemember(steps, registry, w, step.seen.value.session);
      var same := WaitingIs(steps, registry, w);
      var again := PromptsBalance(steps, registry, session);
      SeesExactly(LastSeen(s, w, step.seen.value.session), step.seen, registry);
    }
  }

  lemma {:induction false} ResolutionsLast(steps: seq<Step>, more: seq<Step>, session: string, registry: Registry)
    ensures Resolutions(steps + more, session, registry) >= Resolutions(steps, session, registry)
  {
    if more == [] {
      assert steps + more == steps;
    } else {
      assert (steps + more)[..|steps + more| - 1] == steps + more[..|more| - 1];
      ResolutionsLast(steps, more[..|more| - 1], session, registry);
    }
  }

  lemma OfferedIsNotRaised(steps: seq<Step>, last: Step, session: string, registry: Registry)
    requires Resolutions(steps, session, registry) > 0
    ensures Raised(Run(steps, registry), last, registry) != Some(session)
  {
    var s := PromptsBalance(steps, registry, session);
  }

  lemma RaisesLast(before: seq<Step>, last: Step, all: seq<Step>, session: string, registry: Registry)
    requires all == before + [last]
    ensures Run(all, registry) == Do(Run(before, registry), last, registry)
    ensures Raises(all, session, registry) ==
            Raises(before, session, registry)
            + if Raised(Run(before, registry), last, registry) == Some(session) then 1 else 0
    ensures Resolutions(all, session, registry) ==
            Resolutions(before, session, registry) + if Settles(before, last, session, registry) then 1 else 0
  {
    assert all[..|all| - 1] == before;
  }

  /** Once a prompt of a session has resolved, however the run goes on, none is raised for it again. */
  lemma {:induction false} NeverAgain(steps: seq<Step>, more: seq<Step>, session: string, registry: Registry)
    requires Resolutions(steps, session, registry) > 0
    ensures Raises(steps + more, session, registry) == Raises(steps, session, registry)
  {
    if more == [] {
      assert steps + more == steps;
    } else {
      var all, before, last := steps + more, steps + more[..|more| - 1], more[|more| - 1];
      assert all == before + [last];
      NeverAgain(steps, more[..|more| - 1], session, registry);
      ResolutionsLast(steps, more[..|more| - 1], session, registry);
      OfferedIsNotRaised(before, last, session, registry);
      RaisesLast(before, last, all, session, registry);
    }
  }

  // ----- How many prompts of one session are open

  function OpenNow(steps: seq<Step>, session: string, registry: Registry): int {
    Raises(steps, session, registry) - Resolutions(steps, session, registry)
  }

  /** At every moment of the run at most one prompt of the session is open. */
  ghost predicate OneAtMost(steps: seq<Step>, session: string, registry: Registry) {
    OpenNow(steps, session, registry) <= 1 && (steps != [] ==> OneAtMost(steps[..|steps| - 1], session, registry))
  }

  /** No check of the run meets the edge of the session while one of its prompts is open. */
  ghost predicate NoEdgeWhileOpen(steps: seq<Step>, session: string, registry: Registry) {
    steps != [] ==>
      var (before, last) := (steps[..|steps| - 1], steps[|steps| - 1]);
      && NoEdgeWhileOpen(before, session, registry)
      && (OpenNow(before, session, registry) > 0 ==> !MeetsEdge(before, last, session, registry))
  }

  lemma NextOpen(before: seq<Step>, step: Step, after: seq<Step>, session: string, registry: Registry)
    requires after == before + [step]
    ensures OpenNow(after, session, registry) ==
            OpenNow(before, session, registry)
            + (if MeetsEdge(before, step, session, registry) then 1 else 0)
            - (if Settles(before, step, session, registry) then 1 else 0)
    ensures OpenNow(before, session, registry) >= 0
    ensures MeetsEdge(before, step, session, registry) ==> !Settles(before, step, session, registry)
  {
    RaisesLast(before, step, after, session, registry);
    RaisedExactlyOnEdges(before, registry, step, session);
    var s := PromptsBalance(before, registry, session);
  }

  lemma StaysOne(before: seq<Step>, step: Step, after: seq<Step>, session: string, registry: Registry)
    requires after == before + [step] && OpenNow(before, session, registry) <= 1
    ensures OpenNow(after, session, registry) <= 1 <==>
            (OpenNow(before, session, registry) > 0 ==> !MeetsEdge(before, step, session, registry))
  {
    NextOpen(before, step, after, session, registry);
  }

  /** In every run, at most one prompt of a session is open at a time exactly when no check meets
      the session's edge while one is: the guard is only set once a prompt resolves. */
  lemma {:induction false} OnePromptExactly(steps: seq<Step>, session: string, registry: Registry)
    ensures OneAtMost(steps, session, registry) <==> NoEdgeWhileOpen(steps, session, registry)
  {
    if steps != [] {
      var before, last := steps[..|steps| - 1], steps[|steps| - 1];
      OnePromptExactly(before, session, registry);
      if OneAtMost(before, session, registry) {
        StaysOne(before, last, steps, session, registry);
      }
    }
  }

  /** And it can fail: opened on an idle grill, a watcher that sees it blocked, idle and blocked again
      raises a second prompt beside the first, which nobody has answered. */
  lemma SecondPromptWhileFirstIsOpen(registry: Registry, session: string)
    requires GRILL in registry.order && GRILL in registry.interactive
    ensures var (blocked, idle) := (PollOf(session, [NodeState(GRILL, "blocked")]), PollOf(session, []));
            var run := [OpeningOf(session, []), blocked, idle, blocked];
            Raises(run, session, registry) == 2 && Resolutions(run, session, registry) == 0
  {
    var (blocked, idle) := (PollOf(session, [NodeState(GRILL, "blocked")]), PollOf(session, []));
    var open := OpeningOf(session, []);
    var s1, s2, s3 := [open], [open, blocked], [open, blocked, idle];
    RaisesLast([], open, s1, session, registry);
    OpensIdle(session, registry);
    RaisesLast(s1, blocked, s2, session, registry);
    BlockedPollRaises(Run(s1, registry), session, registry);
    RaisesLast(s2, idle, s3, session, registry);
    IdlePollForgets(Run(s2, registry), session, registry);
    RaisesLast(s3, blocked, [open, blocked, idle, blocked], session, registry);
    BlockedPollRaises(Run(s3, registry), session, registry);
  }

  function PollOf(session: string, pipeline: Snapshot): Step {
    Poll(0, Some(Record(session, pipeline)), Some(Record(session, pipeline)))
  }

  function OpeningOf(session: string, pipeline: Snapshot): Step {
    OpenControl(Some(Record(session, pipeline)), Some(Record(session, pipeline)))
  }

  /** One watcher, past its opening check, that last saw nothing of the session. */
  predicate Watching(s: State, session: string) {
    |s.watchers| == 1 && s.waiting == {} && session !in s.results && session !in s.offered
  }

  lemma OpensIdle(session: string, registry: Registry)
    ensures Raised(START, OpeningOf(session, []), registry) == None
    ensures var s := Do(START, OpeningOf(session, []), registry);
            Watching(s, session) && LastSeen(s, 0, session) == []
  {
  }

  lemma BlockedPollRaises(s: State, session: string, registry: Registry)
    requires GRILL in registry.order && GRILL in registry.interactive
    requires Watching(s, session) && LastSeen(s, 0, session) == []
    ensures Raised(s, PollOf(session, [NodeState(GRILL, "blocked")]), registry) == Some(session)
    ensures Watching(Do(s, PollOf(session, [NodeState(GRILL, "blocked")]), registry), session)
  {
    var now := [NodeState(GRILL, "blocked")];
    assert Blocked(now, GRILL) && !Blocked([], GRILL);
    SeesExactly([], Some(Record(session, now)), registry);
  }

  lemma IdlePollForgets(s: State, session: string, registry: Registry)
    requires Watching(s, session)
    ensures Raised(s, PollOf(session, []), registry) == None
    ensures var t := Do(s, PollOf(session, []), registry);
            Watching(t, session) && LastSeen(t, 0, session) == []
  {
  }

  // ----- The extension's state

  class Extension {
    var offeredGrillFor: set<string>
    var lastSeen: seq<map<string, Snapshot>>
    ghost var results: set<string>
    ghost var waiting: set<nat>
    ghost var prompts: seq<Prompt>

    ghost function View(): State
      reads this
    {
      State(offeredGrillFor, results, lastSeen, waiting, prompts)
    }

    constructor ()
      ensures View() == START
    {
      offeredGrillFor, lastSeen, results, waiting, prompts := {}, [], {}, {}, [];
    }

    /** `resultExists` is what the file system answers for the session asked about. */
    method MaybeOfferGrill(rec: Option<Record>, resultExists: bool) returns (prompt: Option<string>)
      requires rec != None ==> (resultExists <==> rec.value.session in results)
      ensures prompt == if MayOffer(View(), rec) then Some(rec.value.session) else None
    {
      if rec == None || FirstState(rec.value.pipeline, GRILL) != Some("blocked") {
        return None;
      }
      if resultExists || rec.value.session in offeredGrillFor {
        return None;
      }
      return Some(rec.value.session);
    }

    method CheckTransitions(w: nat, seen: Option<Record>, offerFor: Option<Record>, resultExists: bool,
                            registry: Registry)
      returns (prompt: Option<string>)
      requires w < |lastSeen|
      requires offerFor != None ==> (resultExists <==> offerFor.value.session in results)
      modifies this`lastSeen
      ensures lastSeen == old(lastSeen)[w := Saw(old(lastSeen)[w], seen)]
      ensures prompt == if seen != None
                           && SeesTransition(LastSeen(old(View()), w, seen.value.session), seen, registry)
                           && MayOffer(old(View()), offerFor)
                        then Some(offerFor.value.session) else None
    {
      prompt := None;
      if seen == None {
        return;
      }
      var session := seen.value.session;
      var prev := if session in lastSeen[w] then lastSeen[w][session] else [];
      lastSeen := lastSeen[w := lastSeen[w][session := seen.value.pipeline]];
      var transitions := DiffBlocked(prev, seen.value.pipeline, registry);
      if GRILL in transitions {
        prompt := MaybeOfferGrill(offerFor, resultExists);
      }
    }

    /** The opening check is awaited: the interval starts when its prompt, if any, has resolved. */
    method RunMissionControl(seen: Option<Record>, offerFor: Option<Record>, resultExists: bool, registry: Registry)
      returns (prompt: Option<string>)
      requires offerFor != None ==> (resultExists <==> offerFor.value.session in results)
      modifies this
      ensures prompt == Raised(old(View()), OpenControl(seen, offerFor), registry)
      ensures View() == Do(old(View()), OpenControl(seen, offerFor), registry)
    {
      var w := |lastSeen|;
      lastSeen := lastSeen + [map[]];
      prompt := CheckTransitions(w, seen, offerFor, resultExists, registry);
      prompts := prompts + Opening(prompt, Some(w));
      waiting := if prompt == None then waiting else waiting + {w};
    }

    /** One tick of a watcher's interval. */
    method Tick(w: nat, seen: Option<Record>, offerFor: Option<Record>, resultExists: bool, registry: Registry)
      returns (prompt: Option<string>)
      requires w < |lastSeen| && w !in waiting
      requires offerFor != None ==> (resultExists <==> offerFor.value.session in results)
      modifies this
      ensures prompt == Raised(old(View()), Poll(w, seen, offerFor), registry)
      ensures View() == Do(old(View()), Poll(w, seen, offerFor), registry)
    {
      prompt := CheckTransitions(w, seen, offerFor, resultExists, registry);
      prompts := prompts + Opening(prompt, None);
    }

    method PromptResolved(i: nat, session: string, choice: Choice, registry: Registry)
      requires i < |prompts| && prompts[i].session == session
      modifies this
      ensures View() == Do(old(View()), Resolve(i, choice), registry)
    {
      waiting := if prompts[i].opener == None then waiting else waiting - {prompts[i].opener.value};
      prompts := Without(prompts, i);
      offeredGrillFor := offeredGrillFor + {session};
      if choice == Skip {
        results := results + {session};
      }
    }
  }

  // ----- Terminal notifications

  datatype RunStatus = RunStatus(producer: string, runId: string, state: string, terminal: Option<string>)

  /** The key of a finished run: its producer, id and terminal observation, joined by NUL. */
  function TerminalKey(r: RunStatus): Option<string> {
    if r.state != "passed" && r.state != "failed" then None
    else if r.terminal == None || r.terminal.value == "" then None
    else Some(r.producer + ['\0'] + r.runId + ['\0'] + r.terminal.value)
  }

  predicate NulFree(s: string) {
    '\0' !in s
  }

  lemma NulSplits(a: string, b: string, c: string, d: string)
    requires NulFree(a) && NulFree(c) && a + ['\0'] + b == c + ['\0'] + d
    ensures a == c && b == d
  {
    var s := a + ['\0'] + b;
    assert s[|a|] == '\0' && (c + ['\0'] + d)[|c|] == '\0';
    forall k | 0 <= k < |a| ensures s[k] != '\0' { assert s[k] == a[k]; }
    forall k | 0 <= k < |c| ensures s[k] != '\0' { assert (c + ['\0'] + d)[k] == c[k]; }
    assert |a| == |c|;
    assert a == s[..|a|] && c == s[..|c|];
    assert b == s[|a| + 1..] && d == s[|c| + 1..];
  }

  /** Keys identify finished runs by their three parts exactly, as long as producer and id hold no NUL. */
  lemma KeysDistinguishRuns(r: RunStatus, q: RunStatus)
    requires TerminalKey(r) != None && TerminalKey(q) != None
    requires NulFree(r.producer) && NulFree(q.producer) && NulFree(r.runId) && NulFree(q.runId)
    ensures TerminalKey(r) == TerminalKey(q) <==>
            r.producer == q.producer && r.runId == q.runId && r.terminal == q.terminal
  {
    if TerminalKey(r) == TerminalKey(q) {
      var rest, other := r.runId + ['\0'] + r.terminal.value, q.runId + ['\0'] + q.terminal.value;
      assert r.producer + ['\0'] + rest == TerminalKey(r).value;
      assert q.producer + ['\0'] + other == TerminalKey(q).value;
      NulSplits(r.producer, rest, q.producer, other);
      NulSplits(r.runId, r.terminal.value, q.runId, q.terminal.value);
    }
  }

  /** A NUL inside a part can make two runs share a key, so that only the first is notified. */
  lemma NulConfusesRuns(terminal: string) returns (r: RunStatus, q: RunStatus)
    requires terminal != ""
    ensures TerminalKey(r) == TerminalKey(q) != None && r.producer != q.producer
  {
    var nul: string := ['\0'];
    r := RunStatus("a", "b" + nul + "c", "passed", Some(terminal));
    q := RunStatus("a" + nul + "b", "c", "passed", Some(terminal));
    assert "a" + nul + ("b" + nul + "c") + nul + terminal == ("a" + nul + "b") + nul + "c" + nul + terminal;
    assert |q.producer| == 3;
  }

  predicate SameRun(r: RunStatus, q: RunStatus) {
    r.producer == q.producer && r.runId == q.runId && r.terminal == q.terminal
  }

  /** The key of a finished run, from its parts. */
  function KeyOf(producer: string, runId: string, terminal: string): string {
    producer + ['\0'] + runId + ['\0'] + terminal
  }

  /** No part of the run can be cut elsewhere. */
  predicate CutsOneWay(r: RunStatus)
    requires TerminalKey(r) != None
  {
    NulFree(r.producer) && NulFree(r.runId) && NulFree(r.terminal.value[..|r.terminal.value| - 1])
  }

  /** Where a NUL can stand in a key: after the producer, after the run id, or within a part. */
  lemma NulsOf(producer: string, runId: string, terminal: string, key: string, k: nat)
    requires key == KeyOf(producer, runId, terminal) && k < |key| && key[k] == '\0'
    requires NulFree(producer) && NulFree(runId)
    ensures k == |producer| || k == |producer| + 1 + |runId| || k >= |producer| + |runId| + 2
  {
    forall i | 0 <= i < |producer| ensures key[i] != '\0' { assert key[i] == producer[i] && producer[i] in producer; }
    forall i | |producer| < i < |producer| + 1 + |runId| ensures key[i] != '\0' {
      var c := runId[i - |producer| - 1];
      assert key[i] == c && c in runId;
    }
  }

  lemma PartsOf(producer: string, runId: string, terminal: string, key: string)
    requires key == KeyOf(producer, runId, terminal)
    ensures key[|producer|] == '\0' && key[|producer| + 1 + |runId|] == '\0'
    ensures producer == key[..|producer|] && runId == key[|producer| + 1..|producer| + 1 + |runId|]
    ensures terminal == key[|producer| + |runId| + 2..]
  {
  }

  lemma OnlyOneCut(r: RunStatus, q: RunStatus)
    requires TerminalKey(r) != None && TerminalKey(r) == TerminalKey(q) && CutsOneWay(r)
    ensures SameRun(r, q)
  {
    var key, t, u := TerminalKey(r).value, r.terminal.value, q.terminal.value;
    PartsOf(r.producer, r.runId, t, key);
    PartsOf(q.producer, q.runId, u, key);
    NotInTerminal(r.producer, r.runId, t, key, |q.producer|);
    NotInTerminal(r.producer, r.runId, t, key, |q.producer| + 1 + |q.runId|);
    NulsOf(r.producer, r.runId, t, key, |q.producer|);
    NulsOf(r.producer, r.runId, t, key, |q.producer| + 1 + |q.runId|);
  }

  lemma NotInTerminal(producer: string, runId: string, terminal: string, key: string, k: nat)
    requires key == KeyOf(producer, runId, terminal) && terminal != "" && NulFree(terminal[..|terminal| - 1])
    requires k < |key| - 1 && key[k] == '\0'
    ensures k < |producer| + |runId| + 2
  {
    var start, front := |producer| + |runId| + 2, terminal[..|terminal| - 1];
    forall i | start <= i < |key| - 1 ensures key[i] != '\0' {
      assert key[i] == front[i - start] && front[i - start] in front;
    }
  }

  lemma NulAt(s: string) returns (i: nat)
    requires !NulFree(s)
    ensures i < |s| && s == s[..i] + ['\0'] + s[i + 1..]
  {
    i :| 0 <= i < |s| && s[i] == '\0';
  }

  /** A finished run whose parts can be cut elsewhere, and the other run they then read as. */
  lemma OtherCut(r: RunStatus) returns (q: RunStatus)
    requires TerminalKey(r) != None && !CutsOneWay(r)
    ensures TerminalKey(q) == TerminalKey(r) && !SameRun(r, q)
  {
    var nul: string, t := ['\0'], r.terminal.value;
    if !NulFree(r.producer) {
      var i := NulAt(r.producer);
      q := r.(producer := r.producer[..i], runId := r.producer[i + 1..] + nul + r.runId);
      assert r.producer[..i] + nul + (r.producer[i + 1..] + nul + r.runId) + nul + t ==
             (r.producer[..i] + nul + r.producer[i + 1..]) + nul + r.runId + nul + t;
    } else if !NulFree(r.runId) {
      var i := NulAt(r.runId);
      q := r.(producer := r.producer + nul + r.runId[..i], runId := r.runId[i + 1..]);
      assert (r.producer + nul + r.runId[..i]) + nul + r.runId[i + 1..] + nul + t ==
             r.producer + nul + (r.runId[..i] + nul + r.runId[i + 1..]) + nul + t;
    } else {
      var front := t[..|t| - 1];
      var i := NulAt(front);
      assert t == t[..i] + nul + t[i + 1..];
      q := r.(runId := r.runId + nul + t[..i], terminal := Some(t[i + 1..]));
      assert r.producer + nul + (r.runId + nul + t[..i]) + nul + t[i + 1..] ==
             r.producer + nul + r.runId + nul + (t[..i] + nul + t[i + 1..]);
    }
  }

  /** No other finished run shares a run's key exactly when neither its producer nor its id holds a
      NUL, nor its terminal observation before the last character. */
  lemma KeyIsOwnExactly(r: RunStatus)
    requires TerminalKey(r) != None
    ensures (forall q :: TerminalKey(q) == TerminalKey(r) ==> SameRun(r, q)) <==> CutsOneWay(r)
  {
    if CutsOneWay(r) {
      forall q | TerminalKey(q) == TerminalKey(r) ensures SameRun(r, q) { OnlyOneCut(r, q); }
    } else {
      var q := OtherCut(r);
    }
  }

  class TerminalNotifier {
    var notifiedTerminals: set<string>
    /** Every notification sent since mission control opened, oldest first. */
    ghost var sent: seq<string>

    ghost predicate Valid()
      reads this
    {
      Injective(sent) && forall k :: k in notifiedTerminals <==> k in sent
    }

    constructor ()
      ensures Valid() && sent == []
    {
      notifiedTerminals, sent := {}, [];
    }

    /** Notifies each terminal identity of the payload unless it has been notified before, so
        over any number of polls no identity is notified twice and none is missed. */
    method NotifyNewTerminals(runs: seq<RunStatus>) returns (notified: seq<string>)
      requires Valid()
      modifies this
      ensures Valid() && sent == old(sent) + notified
      ensures forall k :: k in sent <==> k in old(sent) || exists r :: r in runs && TerminalKey(r) == Some(k)
    {
      notified := [];
      for i := 0 to |runs|
        invariant Valid() && sent == old(sent) + notified
        invariant forall k :: k in sent <==> k in old(sent) || exists r :: r in runs[..i] && TerminalKey(r) == Some(k)
      {
        var key := TerminalKey(runs[i]);
        assert runs[..i + 1] == runs[..i] + [runs[i]];
        if key != None && key.value !in notifiedTerminals {
          notifiedTerminals := notifiedTerminals + {key.value};
          notified := notified + [key.value];
          sent := sent + [key.value];
        }
      }
      assert runs[..|runs|] == runs;
    }
  }
}
