/** The navigation controller of the system page: fetches interleave freely, and generation
    counters decide which of their answers may still touch the page. A run is any sequence of
    clicks and resumed continuations. */
module Navigation {
  import opened Texts
  import opened Wrappers

  type Scope = string

  datatype Kind = Task | File | Goal | Sim | Diag | Catchup | Feat | Sr | Bundle

  /** The panels of the workspace, with the traversal node. */
  datatype Panel = Brief | Matrix | Timeline | Guide | Story | Reverse | Trace | Feature | Vcycle
    | GoalPanel | Validation | SimPanel | Diagram | CatchupPanel | Traversal

  const PANELS: set<Panel> := {Brief, Matrix, Timeline, Guide, Story, Reverse, Trace, Feature, Vcycle,
                               GoalPanel, Validation, SimPanel, Diagram, CatchupPanel, Traversal}

  /** One navigation: its generation and the scope it asked for. */
  datatype Nav = Nav(gen: nat, scope: Scope)

  /** What a panel shows, and which navigation put it there. */
  datatype Content =
    | Placeholder(writer: Nav)
    | Evidence(writer: Nav)
    | TraceMap(writer: Nav, refs: seq<string>)

  datatype View = Landing | Workspace | Vocabulary

  /** A suspended continuation of one of the async functions. */
  datatype Pending =
    | Single(nav: Nav)
    | Dossier(nav: Nav)
    | LegacyBase(nav: Nav)
    | LegacyVcycle(nav: Nav, rows: seq<string>)
    | LegacyValidation(nav: Nav, rows: seq<string>)
    | TraversalFetch(nav: Nav)
    | Graph(nav: Nav, refs: seq<string>)
    | Health(gen: nat)

  /** How an awaited fetch ends. `rows` are the SR refs of a matrix; `Missing` is an
      unavailable dossier, `Failed` an error or an abort. */
  datatype Reply = Arrived(rows: seq<string>) | Missing | Failed

  datatype Event =
    | Navigate(scope: Scope)
    | Home
    | StartHealth
    | ToggleVocabulary
    | OpenTrace
    | Resume(i: nat, reply: Reply, onTraceTab: bool)

  datatype State = State(
    navGen: nat, scope: Option<Scope>, view: View,
    panels: map<Panel, Content>,
    refs: seq<string>, refsBy: Nav,
    trace: Option<Nav>,
    healthGen: nat, healthController: Option<nat>,
    pending: seq<Pending>)

  function KindOf(scope: Scope): Kind {
    var i := IndexOf(scope, ":", 0);
    var prefix := if i == -1 then "" else scope[..i];
    if prefix == "task" then Task
    else if prefix == "file" then File
    else if prefix == "goal" then Goal
    else if prefix == "sim" then Sim
    else if prefix == "diag" then Diag
    else if prefix == "catchup" then Catchup
    else if prefix == "feat" then Feat
    else if prefix == "sr" then Sr
    else Bundle
  }

  function MainPanel(kind: Kind): Panel {
    match kind
    case Task => Story
    case File => Reverse
    case Goal => GoalPanel
    case Sim => SimPanel
    case Diag => Diagram
    case Catchup => CatchupPanel
    case Feat => Feature
    case Sr => Brief
    case Bundle => Brief
  }

  /** The panels a one-panel loader marks as not applicable. */
  function OtherPanels(kind: Kind): set<Panel> {
    match kind
    case Task => {Brief, Matrix, Timeline, Guide, Reverse, Trace}
    case File => {Brief, Matrix, Timeline, Guide, Story, Trace}
    case Goal => {Brief, Matrix, Timeline, Guide, Story, Reverse, Trace, Feature, Vcycle}
    case Sim => {Brief, Matrix, Timeline, Guide, Story, Reverse, Trace, Feature, Vcycle, GoalPanel, Validation}
    case Diag => {Brief, Matrix, Timeline, Guide, Story, Reverse, Trace, Feature, Vcycle, GoalPanel, Validation,
        SimPanel}
    case Catchup =>
      {Brief, Matrix, Timeline, Guide, Story, Reverse, Trace, Feature, Vcycle, GoalPanel, Validation, SimPanel, Diagram}
    case _ => {}
  }

  predicate OnePanel(kind: Kind) {
    kind != Feat && kind != Sr && kind != Bundle
  }

  // ----- The guard and the writes

  predicate IsCurrent(s: State, nav: Nav) {
    nav.gen == s.navGen && s.scope == Some(nav.scope)
  }

  function Put(s: State, where: set<Panel>, content: Content): State {
    s.(panels := s.panels + map p | p in where :: content)
  }

  function AllPlaceholders(nav: Nav): map<Panel, Content> {
    map p | p in PANELS :: Placeholder(nav)
  }

  function ShowLanding(s: State): State {
    s.(view := Landing, scope := None)
  }

  function Await(s: State, next: Pending): State {
    s.(pending := s.pending + [next])
  }

  function RefsFor(nav: Nav, rows: seq<string>): seq<string> {
    if KindOf(nav.scope) == Sr then [nav.scope] else rows
  }

  // ----- Steps

  /** `loadScope` up to its first await: invalidate health, take a generation, reset every panel. */
  function LoadScope(s: State, scope: Scope): State {
    var nav := Nav(s.navGen + 1, scope);
    State(nav.gen, Some(scope), Workspace, AllPlaceholders(nav), RefsFor(nav, []), nav, None,
          s.healthGen + 1, None,
          s.pending + [if OnePanel(KindOf(scope)) then Single(nav) else Dossier(nav)])
  }

  /** The catch block of `loadScope`. */
  function Fail(s: State, nav: Nav): State {
    if IsCurrent(s, nav) then ShowLanding(s) else s
  }

  function ResumeSingle(s: State, nav: Nav, reply: Reply): State {
    if !reply.Arrived? then Fail(s, nav)
    else if !IsCurrent(s, nav) then s
    else
      var kind := KindOf(nav.scope);
      Put(Put(s, {MainPanel(kind)}, Evidence(nav)), OtherPanels(kind), Placeholder(nav))
  }

  function RenderBase(s: State, nav: Nav): State {
    Put(Put(s, {MainPanel(KindOf(nav.scope)), Matrix, Timeline, Guide}, Evidence(nav)), {Story, Reverse},
        Placeholder(nav))
  }

  /** `finishBundleScopeLoad` up to its await. It does not ask whether the navigation is current. */
  function Finish(s: State, nav: Nav, rows: seq<string>): State {
    Await(s.(refs := RefsFor(nav, rows), refsBy := nav), TraversalFetch(nav))
  }

  function ResumeDossier(s: State, nav: Nav, reply: Reply): State {
    match reply
    case Missing => Await(s, LegacyBase(nav))
    case Failed => Fail(s, nav)
    case Arrived(rows) =>
      if !IsCurrent(s, nav) then s
      else
        var kind := KindOf(nav.scope);
        var base := RenderBase(s, nav);
        var vcycle := Put(base, {Vcycle}, if kind == Feat || kind == Sr then Evidence(nav) else Placeholder(nav));
        var validation := Put(vcycle, {Validation}, if kind == Sr then Evidence(nav) else Placeholder(nav));
        Finish(validation, nav, rows)
  }

  function ResumeLegacyBase(s: State, nav: Nav, reply: Reply): State {
    if !reply.Arrived? then Fail(s, nav)
    else if !IsCurrent(s, nav) then s
    else
      var base := RenderBase(s, nav);
      if KindOf(nav.scope) == Bundle then
        Finish(Put(base, {Vcycle, Validation}, Placeholder(nav)), nav, reply.rows)
      else
        Await(base, LegacyVcycle(nav, reply.rows))
  }

  function Guarded(s: State, nav: Nav, where: Panel, reply: Reply): State {
    if IsCurrent(s, nav) then Put(s, {where}, if reply.Arrived? then Evidence(nav) else Placeholder(nav)) else s
  }

  function ResumeLegacyVcycle(s: State, nav: Nav, rows: seq<string>, reply: Reply): State {
    var shown := Guarded(s, nav, Vcycle, reply);
    if KindOf(nav.scope) == Sr then Await(shown, LegacyValidation(nav, rows))
    else Finish(Put(shown, {Validation}, Placeholder(nav)), nav, rows)
  }

  function ResumeLegacyValidation(s: State, nav: Nav, rows: seq<string>, reply: Reply): State {
    Finish(Guarded(s, nav, Validation, reply), nav, rows)
  }

  function LoadTrace(s: State, nav: Nav): State {
    if !IsCurrent(s, nav) then s
    else if s.refs == [] then Put(s, {Trace}, Placeholder(nav))
    else if s.trace != None then Put(s, {Trace}, TraceMap(nav, s.refs))
    else Await(s, Graph(nav, s.refs))
  }

  function ResumeTraversal(s: State, nav: Nav, reply: Reply, onTraceTab: bool): State {
    var shown := Guarded(s, nav, Traversal, reply);
    if onTraceTab then LoadTrace(shown, nav) else shown
  }

  function ResumeGraph(s: State, nav: Nav, refs: seq<string>, reply: Reply): State {
    if !IsCurrent(s, nav) then s
    else if reply.Arrived? then Put(s.(trace := Some(nav)), {Trace}, TraceMap(nav, refs))
    else Put(s, {Trace}, Placeholder(nav))
  }

  /** A finished or failed health scan shows the landing page, unless a newer scan or a
      navigation has superseded it. */
  function ResumeHealth(s: State, gen: nat): State {
    if gen != s.healthGen || s.healthController != Some(gen) then s
    else ShowLanding(s).(healthController := None)
  }

  function Continue(s: State, task: Pending, reply: Reply, onTraceTab: bool): State {
    match task
    case Single(nav) => ResumeSingle(s, nav, reply)
    case Dossier(nav) => ResumeDossier(s, nav, reply)
    case LegacyBase(nav) => ResumeLegacyBase(s, nav, reply)
    case LegacyVcycle(nav, rows) => ResumeLegacyVcycle(s, nav, rows, reply)
    case LegacyValidation(nav, rows) => ResumeLegacyValidation(s, nav, rows, reply)
    case TraversalFetch(nav) => ResumeTraversal(s, nav, reply, onTraceTab)
    case Graph(nav, refs) => ResumeGraph(s, nav, refs, reply)
    case Health(gen) => ResumeHealth(s, gen)
  }

  function Without(s: State, i: nat): State
    requires i < |s.pending|
  {
    s.(pending := s.pending[..i] + s.pending[i + 1..])
  }

  function Step(s: State, e: Event): State {
    match e
    case Navigate(scope) => LoadScope(s, scope)
    case Home => ShowLanding(s).(navGen := s.navGen + 1)
    case StartHealth =>
      Await(s, Health(s.healthGen + 1)).(healthGen := s.healthGen + 1, healthController := Some(s.healthGen + 1))
    case ToggleVocabulary =>
      if s.view != Vocabulary then s.(view := Vocabulary)
      else if s.scope != None then s.(view := Workspace)
      else ShowLanding(s)
    case OpenTrace => if s.scope != None then LoadTrace(s, Nav(s.navGen, s.scope.value)) else s
    case Resume(i, reply, onTraceTab) =>
      if i < |s.pending| then Continue(Without(s, i), s.pending[i], reply, onTraceTab) else s
  }

  function Run(s: State, events: seq<Event>): State {
    if events == [] then s else Step(Run(s, events[..|events| - 1]), events[|events| - 1])
  }

  const START := State(0, None, Landing, AllPlaceholders(Nav(0, "")), [], Nav(0, ""), None, 0, None, [])

  // ----- The invariant

  predicate RecordsRefs(t: Pending) {
    t.Dossier? || t.LegacyBase? || t.LegacyVcycle? || t.LegacyValidation?
  }

  /** Everything the workspace shows or derives traces from was put there by this navigation. */
  ghost predicate ShowsOnly(s: State, nav: Nav) {
    && (forall p: Panel :: p in s.panels && s.panels[p].writer == nav)
    && s.refsBy == nav
    && (s.trace == None || s.trace == Some(nav))
    && (s.panels[Trace].TraceMap? ==> s.panels[Trace].refs == s.refs != [])
  }

  /** A scope is open only with its own evidence: the promise of the guards. */
  ghost predicate Current(s: State) {
    && (s.scope != None ==> ShowsOnly(s, Nav(s.navGen, s.scope.value)))
    && (s.view == Workspace ==> s.scope != None)
  }

  ghost predicate TaskFits(s: State, t: Pending) {
    if t.Health? then t.gen <= s.healthGen
    else
      && t.nav.gen <= s.navGen
      && (t.Graph? ==> t.refs != [] && (IsCurrent(s, t.nav) ==> t.refs == s.refs))
      && (RecordsRefs(t) && IsCurrent(s, t.nav) ==> s.refs == RefsFor(t.nav, []))
  }

  ghost predicate NoRecorder(pending: seq<Pending>, gen: nat) {
    forall i :: 0 <= i < |pending| && RecordsRefs(pending[i]) ==> pending[i].nav.gen != gen
  }

  /** At most one continuation of each navigation is still to record its trace refs. */
  ghost predicate OneRecorder(pending: seq<Pending>) {
    forall i, j :: 0 <= i < j < |pending| && RecordsRefs(pending[i]) && RecordsRefs(pending[j]) ==>
                     pending[i].nav.gen != pending[j].nav.gen
  }

  ghost predicate Inv(s: State) {
    Current(s) && OneRecorder(s.pending) && forall i :: 0 <= i < |s.pending| ==> TaskFits(s, s.pending[i])
  }

  /** The one kind of step that breaks the promise: the per-endpoint fallback resumes after
      its navigation was superseded and writes without asking. */
  predicate StaleFallbackWrite(s: State, e: Event) {
    && e.Resume? && e.i < |s.pending| && s.scope != None
    && var t := s.pending[e.i];
       && ((t.LegacyVcycle? && KindOf(t.nav.scope) != Sr) || t.LegacyValidation?)
       && !IsCurrent(s, t.nav)
  }

  // ----- Building blocks keep the invariant

  lemma WithoutKeeps(s: State, i: nat)
    requires Inv(s) && i < |s.pending|
    ensures Inv(Without(s, i)) && TaskFits(Without(s, i), s.pending[i])
    ensures RecordsRefs(s.pending[i]) ==> NoRecorder(Without(s, i).pending, s.pending[i].nav.gen)
  {
    var rest := Without(s, i).pending;
    forall j | 0 <= j < |rest| ensures rest[j] == s.pending[if j < i then j else j + 1] {
    }
    assert TaskFits(s, s.pending[i]);
  }

  lemma AwaitKeeps(s: State, t: Pending)
    requires Inv(s) && TaskFits(s, t) && (RecordsRefs(t) ==> NoRecorder(s.pending, t.nav.gen))
    ensures Inv(Await(s, t))
  {
  }

  lemma PutKeeps(s: State, where: set<Panel>, content: Content)
    requires Inv(s) && IsCurrent(s, content.writer)
    requires content.TraceMap? ==> content.refs == s.refs != []
    ensures Inv(Put(s, where, content))
    ensures Put(s, where, content).pending == s.pending
  {
    var after := Put(s, where, content);
    forall i | 0 <= i < |after.pending| ensures TaskFits(after, after.pending[i]) {
      assert TaskFits(s, s.pending[i]);
    }
  }

  lemma LandingKeeps(s: State)
    requires Inv(s)
    ensures Inv(ShowLanding(s))
  {
    forall i | 0 <= i < |s.pending| ensures TaskFits(ShowLanding(s), s.pending[i]) {
      assert TaskFits(s, s.pending[i]);
    }
  }

  lemma RecordKeeps(s: State, nav: Nav, rows: seq<string>)
    requires Inv(s) && nav.gen <= s.navGen && NoRecorder(s.pending, nav.gen)
    requires s.scope == None || (IsCurrent(s, nav) && s.refs == RefsFor(nav, []))
    ensures Inv(s.(refs := RefsFor(nav, rows), refsBy := nav))
  {
    var after := s.(refs := RefsFor(nav, rows), refsBy := nav);
    forall i | 0 <= i < |s.pending| ensures TaskFits(after, s.pending[i]) {
      assert TaskFits(s, s.pending[i]);
    }
  }

  lemma FinishKeeps(s: State, nav: Nav, rows: seq<string>)
    requires Inv(s) && nav.gen <= s.navGen && NoRecorder(s.pending, nav.gen)
    requires s.scope == None || (IsCurrent(s, nav) && s.refs == RefsFor(nav, []))
    ensures Inv(Finish(s, nav, rows))
  {
    RecordKeeps(s, nav, rows);
    AwaitKeeps(s.(refs := RefsFor(nav, rows), refsBy := nav), TraversalFetch(nav));
  }

  lemma AllPanels(p: Panel)
    ensures p in PANELS
  {
    match p { case _ => }
  }

  lemma LoadScopeKeeps(s: State, scope: Scope)
    requires Inv(s)
    ensures Inv(LoadScope(s, scope))
  {
    var after := LoadScope(s, scope);
    forall p: Panel ensures p in PANELS { AllPanels(p); }
    forall i | 0 <= i < |after.pending| ensures TaskFits(after, after.pending[i]) {
      if i < |s.pending| {
        assert TaskFits(s, s.pending[i]);
      }
    }
    forall i, j | 0 <= i < j < |after.pending| && RecordsRefs(after.pending[i]) && RecordsRefs(after.pending[j])
      ensures after.pending[i].nav.gen != after.pending[j].nav.gen
    {
      assert TaskFits(s, s.pending[i]);
    }
  }

  lemma LoadTraceKeeps(s: State, nav: Nav)
    requires Inv(s) && nav.gen <= s.navGen
    ensures Inv(LoadTrace(s, nav))
  {
    if IsCurrent(s, nav) {
      if s.refs == [] {
        PutKeeps(s, {Trace}, Placeholder(nav));
      } else if s.trace != None {
        PutKeeps(s, {Trace}, TraceMap(nav, s.refs));
      } else {
        AwaitKeeps(s, Graph(nav, s.refs));
      }
    }
  }

  lemma RenderBaseKeeps(s: State, nav: Nav)
    requires Inv(s) && IsCurrent(s, nav)
    ensures Inv(RenderBase(s, nav))
    ensures RenderBase(s, nav).(panels := s.panels) == s
  {
    var where := {MainPanel(KindOf(nav.scope)), Matrix, Timeline, Guide};
    PutKeeps(s, where, Evidence(nav));
    PutKeeps(Put(s, where, Evidence(nav)), {Story, Reverse}, Placeholder(nav));
  }

  lemma GuardedKeeps(s: State, nav: Nav, where: Panel, reply: Reply)
    requires Inv(s)
    ensures Inv(Guarded(s, nav, where, reply))
    ensures Guarded(s, nav, where, reply).(panels := s.panels) == s
  {
    if IsCurrent(s, nav) {
      PutKeeps(s, {where}, if reply.Arrived? then Evidence(nav) else Placeholder(nav));
    }
  }

  // ----- Each continuation

  lemma FailKeeps(s: State, nav: Nav)
    requires Inv(s)
    ensures Inv(Fail(s, nav))
  {
    LandingKeeps(s);
  }

  lemma SingleKeeps(s: State, nav: Nav, reply: Reply)
    requires Inv(s)
    ensures Inv(ResumeSingle(s, nav, reply))
  {
    FailKeeps(s, nav);
    if reply.Arrived? && IsCurrent(s, nav) {
      var kind := KindOf(nav.scope);
      PutKeeps(s, {MainPanel(kind)}, Evidence(nav));
      PutKeeps(Put(s, {MainPanel(kind)}, Evidence(nav)), OtherPanels(kind), Placeholder(nav));
    }
  }

  lemma DossierKeeps(s: State, nav: Nav, reply: Reply)
    requires Inv(s) && TaskFits(s, Dossier(nav)) && NoRecorder(s.pending, nav.gen)
    ensures Inv(ResumeDossier(s, nav, reply))
  {
    match reply
    case Missing => AwaitKeeps(s, LegacyBase(nav));
    case Failed => FailKeeps(s, nav);
    case Arrived(rows) =>
      if IsCurrent(s, nav) {
        var kind := KindOf(nav.scope);
        var base := RenderBase(s, nav);
        RenderBaseKeeps(s, nav);
        var c1 := if kind == Feat || kind == Sr then Evidence(nav) else Placeholder(nav);
        var c2 := if kind == Sr then Evidence(nav) else Placeholder(nav);
        PutKeeps(base, {Vcycle}, c1);
        PutKeeps(Put(base, {Vcycle}, c1), {Validation}, c2);
        FinishKeeps(Put(Put(base, {Vcycle}, c1), {Validation}, c2), nav, rows);
      }
  }

  lemma LegacyBaseKeeps(s: State, nav: Nav, reply: Reply)
    requires Inv(s) && TaskFits(s, LegacyBase(nav)) && NoRecorder(s.pending, nav.gen)
    ensures Inv(ResumeLegacyBase(s, nav, reply))
  {
    FailKeeps(s, nav);
    if reply.Arrived? && IsCurrent(s, nav) {
      var base := RenderBase(s, nav);
      RenderBaseKeeps(s, nav);
      if KindOf(nav.scope) == Bundle {
        PutKeeps(base, {Vcycle, Validation}, Placeholder(nav));
        FinishKeeps(Put(base, {Vcycle, Validation}, Placeholder(nav)), nav, reply.rows);
      } else {
        AwaitKeeps(base, LegacyVcycle(nav, reply.rows));
      }
    }
  }

  /** A write that did not ask is harmless while the landing page is up: the next navigation resets it. */
  lemma HiddenPutKeeps(s: State, where: set<Panel>, content: Content)
    requires Inv(s) && s.scope == None
    ensures Inv(Put(s, where, content))
  {
    var after := Put(s, where, content);
    forall i | 0 <= i < |after.pending| ensures TaskFits(after, after.pending[i]) {
      assert TaskFits(s, s.pending[i]);
    }
  }

  lemma LegacyVcycleKeeps(s: State, nav: Nav, rows: seq<string>, reply: Reply)
    requires Inv(s) && TaskFits(s, LegacyVcycle(nav, rows)) && NoRecorder(s.pending, nav.gen)
    requires s.scope == None || IsCurrent(s, nav) || KindOf(nav.scope) == Sr
    ensures Inv(ResumeLegacyVcycle(s, nav, rows, reply))
  {
    var shown := Guarded(s, nav, Vcycle, reply);
    GuardedKeeps(s, nav, Vcycle, reply);
    if KindOf(nav.scope) == Sr {
      AwaitKeeps(shown, LegacyValidation(nav, rows));
    } else {
      if IsCurrent(s, nav) {
        PutKeeps(shown, {Validation}, Placeholder(nav));
      } else {
        HiddenPutKeeps(shown, {Validation}, Placeholder(nav));
      }
      FinishKeeps(Put(shown, {Validation}, Placeholder(nav)), nav, rows);
    }
  }

  lemma LegacyValidationKeeps(s: State, nav: Nav, rows: seq<string>, reply: Reply)
    requires Inv(s) && TaskFits(s, LegacyValidation(nav, rows)) && NoRecorder(s.pending, nav.gen)
    requires s.scope == None || IsCurrent(s, nav)
    ensures Inv(ResumeLegacyValidation(s, nav, rows, reply))
  {
    GuardedKeeps(s, nav, Validation, reply);
    FinishKeeps(Guarded(s, nav, Validation, reply), nav, rows);
  }

  lemma TraversalKeeps(s: State, nav: Nav, reply: Reply, onTraceTab: bool)
    requires Inv(s) && nav.gen <= s.navGen
    ensures Inv(ResumeTraversal(s, nav, reply, onTraceTab))
  {
    GuardedKeeps(s, nav, Traversal, reply);
    LoadTraceKeeps(Guarded(s, nav, Traversal, reply), nav);
  }

  lemma GraphKeeps(s: State, nav: Nav, refs: seq<string>, reply: Reply)
    requires Inv(s) && TaskFits(s, Graph(nav, refs))
    ensures Inv(ResumeGraph(s, nav, refs, reply))
  {
    if IsCurrent(s, nav) {
      if reply.Arrived? {
        var kept := s.(trace := Some(nav));
        forall i | 0 <= i < |s.pending| ensures TaskFits(kept, s.pending[i]) {
          assert TaskFits(s, s.pending[i]);
        }
        PutKeeps(kept, {Trace}, TraceMap(nav, refs));
      } else {
        PutKeeps(s, {Trace}, Placeholder(nav));
      }
    }
  }

  lemma HealthKeeps(s: State, gen: nat)
    requires Inv(s)
    ensures Inv(ResumeHealth(s, gen))
  {
    LandingKeeps(s);
    var landed := ShowLanding(s);
    forall i | 0 <= i < |s.pending| ensures TaskFits(landed.(healthController := None), s.pending[i]) {
      assert TaskFits(landed, landed.pending[i]);
    }
  }

  lemma ResumeKeeps(s: State, i: nat, reply: Reply, onTraceTab: bool)
    requires Inv(s) && i < |s.pending| && !StaleFallbackWrite(s, Resume(i, reply, onTraceTab))
    ensures Inv(Continue(Without(s, i), s.pending[i], reply, onTraceTab))
  {
    var rest := Without(s, i);
    WithoutKeeps(s, i);
    match s.pending[i]
    case Single(nav) => SingleKeeps(rest, nav, reply);
    case Dossier(nav) => DossierKeeps(rest, nav, reply);
    case LegacyBase(nav) => LegacyBaseKeeps(rest, nav, reply);
    case LegacyVcycle(nav, rows) => LegacyVcycleKeeps(rest, nav, rows, reply);
    case LegacyValidation(nav, rows) => LegacyValidationKeeps(rest, nav, rows, reply);
    case TraversalFetch(nav) => TraversalKeeps(rest, nav, reply, onTraceTab);
    case Graph(nav, refs) => GraphKeeps(rest, nav, refs, reply);
    case Health(gen) => HealthKeeps(rest, gen);
  }

  lemma HomeKeeps(s: State)
    requires Inv(s)
    ensures Inv(Step(s, Home))
  {
    forall i | 0 <= i < |s.pending| ensures TaskFits(Step(s, Home), s.pending[i]) {
      assert TaskFits(s, s.pending[i]);
    }
  }

  lemma StartHealthKeeps(s: State)
    requires Inv(s)
    ensures Inv(Step(s, StartHealth))
  {
    var after := Step(s, StartHealth);
    forall i | 0 <= i < |after.pending| ensures TaskFits(after, after.pending[i]) {
      if i < |s.pending| {
        assert TaskFits(s, s.pending[i]);
      }
    }
  }

  lemma ToggleKeeps(s: State)
    requires Inv(s)
    ensures Inv(Step(s, ToggleVocabulary))
  {
    LandingKeeps(s);
    var after := Step(s, ToggleVocabulary);
    forall i | 0 <= i < |s.pending| ensures TaskFits(after, s.pending[i]) {
      assert TaskFits(s, s.pending[i]);
    }
  }

  /** Every step keeps the invariant, but for a stale write of the fallback loader. */
  lemma StepKeeps(s: State, e: Event)
    requires Inv(s) && !StaleFallbackWrite(s, e)
    ensures Inv(Step(s, e))
  {
    match e
    case Navigate(scope) => LoadScopeKeeps(s, scope);
    case Home => HomeKeeps(s);
    case StartHealth => StartHealthKeeps(s);
    case ToggleVocabulary => ToggleKeeps(s);
    case OpenTrace => if s.scope != None { LoadTraceKeeps(s, Nav(s.navGen, s.scope.value)); }
    case Resume(i, reply, onTraceTab) => if i < |s.pending| { ResumeKeeps(s, i, reply, onTraceTab); }
  }

  /** And a stale write always breaks it: the open scope is left with another navigation's trace refs. */
  lemma StaleWriteBreaks(s: State, e: Event)
    requires Inv(s) && StaleFallbackWrite(s, e)
    ensures !Current(Step(s, e))
  {
    var t := s.pending[e.i];
    assert Step(s, e).refsBy == t.nav && Step(s, e).scope == s.scope && Step(s, e).navGen == s.navGen;
  }

  // ----- Whole runs

  ghost predicate AlwaysCurrent(events: seq<Event>) {
    forall n :: 0 <= n <= |events| ==> Current(Run(START, events[..n]))
  }

  ghost predicate NoStaleWrite(events: seq<Event>) {
    forall n :: 0 <= n < |events| ==> !StaleFallbackWrite(Run(START, events[..n]), events[n])
  }

  lemma StartHolds()
    ensures Inv(START)
  {
    forall p: Panel ensures p in PANELS { AllPanels(p); }
  }

  lemma {:induction false} RunKeeps(events: seq<Event>, n: nat)
    requires n <= |events| && forall m :: 0 <= m < n ==> !StaleFallbackWrite(Run(START, events[..m]), events[m])
    ensures Inv(Run(START, events[..n]))
  {
    if n == 0 {
      StartHolds();
    } else {
      RunKeeps(events, n - 1);
      assert events[..n][..n - 1] == events[..n - 1];
      StepKeeps(Run(START, events[..n - 1]), events[n - 1]);
    }
  }

  /** Over every interleaving the open scope shows only its own evidence, at every moment,
      exactly when no superseded fallback load resumes into it. */
  lemma CurrentExactlyWithoutStaleWrites(events: seq<Event>)
    ensures AlwaysCurrent(events) <==> NoStaleWrite(events)
  {
    if NoStaleWrite(events) {
      forall n | 0 <= n <= |events| ensures Current(Run(START, events[..n])) {
        RunKeeps(events, n);
      }
    } else {
      var n := FirstStaleWrite(events, |events|);
      RunKeeps(events, n);
      StaleWriteBreaks(Run(START, events[..n]), events[n]);
      assert events[..n + 1][..n] == events[..n];
      assert !Current(Run(START, events[..n + 1]));
    }
  }

  lemma {:induction false} FirstStaleWrite(events: seq<Event>, bound: nat) returns (n: nat)
    requires bound <= |events|
    requires exists m :: 0 <= m < bound && StaleFallbackWrite(Run(START, events[..m]), events[m])
    ensures n < bound && StaleFallbackWrite(Run(START, events[..n]), events[n])
    ensures forall m :: 0 <= m < n ==> !StaleFallbackWrite(Run(START, events[..m]), events[m])
  {
    if exists m :: 0 <= m < bound - 1 && StaleFallbackWrite(Run(START, events[..m]), events[m]) {
      n := FirstStaleWrite(events, bound - 1);
    } else {
      n := bound - 1;
    }
  }

  ghost predicate FallsBack(e: Event) {
    e.Resume? && e.reply == Missing
  }

  ghost predicate NoFallback(pending: seq<Pending>) {
    forall i :: 0 <= i < |pending| ==>
        !pending[i].LegacyBase? && !pending[i].LegacyVcycle? && !pending[i].LegacyValidation?
  }

  lemma RunGrows(s: State, events: seq<Event>, n: nat)
    requires n < |events|
    ensures Run(s, events[..n + 1]) == Step(Run(s, events[..n]), events[n])
  {
    assert events[..n + 1][..n] == events[..n];
  }

  lemma ContinueAddsNoFallback(s: State, task: Pending, reply: Reply, onTraceTab: bool)
    requires NoFallback([task]) && reply != Missing && NoFallback(s.pending)
    ensures NoFallback(Continue(s, task, reply, onTraceTab).pending)
  {
    assert NoFallback([task]) ==> !task.LegacyBase? && !task.LegacyVcycle? && !task.LegacyValidation? by {
      assert [task][0] == task;
    }
  }

  lemma StepAddsNoFallback(s: State, e: Event)
    requires NoFallback(s.pending) && !FallsBack(e)
    ensures NoFallback(Step(s, e).pending)
  {
    if e.Resume? && e.i < |s.pending| {
      ContinueAddsNoFallback(Without(s, e.i), s.pending[e.i], e.reply, e.onTraceTab);
    }
  }

  lemma {:induction false} DossierRunsHaveNoFallback(events: seq<Event>, n: nat)
    requires n <= |events| && forall e :: e in events ==> !FallsBack(e)
    ensures NoFallback(Run(START, events[..n]).pending)
  {
    if n > 0 {
      DossierRunsHaveNoFallback(events, n - 1);
      RunGrows(START, events, n - 1);
      StepAddsNoFallback(Run(START, events[..n - 1]), events[n - 1]);
    }
  }

  /** While the dossier endpoint answers, every interleaving is safe without any condition. */
  lemma DossierRunsStayCurrent(events: seq<Event>)
    requires forall e :: e in events ==> !FallsBack(e)
    ensures AlwaysCurrent(events)
  {
    forall n | 0 <= n < |events| ensures !StaleFallbackWrite(Run(START, events[..n]), events[n]) {
      DossierRunsHaveNoFallback(events, n);
    }
    CurrentExactlyWithoutStaleWrites(events);
  }

  lemma RunLast(s: State, events: seq<Event>, e: Event)
    ensures Run(s, events + [e]) == Step(Run(s, events), e)
  {
    assert (events + [e])[..|events|] == events;
  }

  /** A feature's dossier is missing, its base data arrives, and its V-cycle request is in flight. */
  lemma LeakPrefix(a: Scope) returns (events: seq<Event>)
    requires KindOf(a) == Feat
    ensures events == [Navigate(a)] + [Resume(0, Missing, false)] + [Resume(0, Arrived(["SR-1"]), false)]
    ensures var s := Run(START, events);
            s.pending == [LegacyVcycle(Nav(1, a), ["SR-1"])] && s.navGen == 1
  {
    var (e1, e2, e3) := (Navigate(a), Resume(0, Missing, false), Resume(0, Arrived(["SR-1"]), false));
    assert [] + [e1] == [e1];
    RunLast(START, [], e1);
    FirstNavigation(a);
    RunLast(START, [e1], e2);
    DossierMissing(Run(START, [e1]), a);
    RunLast(START, [e1] + [e2], e3);
    BaseArrives(Run(START, [e1] + [e2]), a);
    events := [e1] + [e2] + [e3];
  }

  /** The only request in flight, for the first navigation. */
  predicate Waits(s: State, a: Scope, task: Pending) {
    s.pending == [task] && s.navGen == 1 && s.scope == Some(a)
  }

  lemma FirstNavigation(a: Scope)
    requires KindOf(a) == Feat
    ensures Waits(Step(START, Navigate(a)), a, Dossier(Nav(1, a)))
  {
  }

  lemma DossierMissing(s: State, a: Scope)
    requires KindOf(a) == Feat && Waits(s, a, Dossier(Nav(1, a)))
    ensures Waits(Step(s, Resume(0, Missing, false)), a, LegacyBase(Nav(1, a)))
  {
  }

  lemma BaseArrives(s: State, a: Scope)
    requires KindOf(a) == Feat && Waits(s, a, LegacyBase(Nav(1, a)))
    ensures Waits(Step(s, Resume(0, Arrived(["SR-1"]), false)), a, LegacyVcycle(Nav(1, a), ["SR-1"]))
  {
  }

  /** The fallback does leak: leave that feature before the request ends, and its abort
      rewrites the trace refs of the scope now open. */
  lemma FallbackLeaks(a: Scope, b: Scope) returns (events: seq<Event>)
    requires KindOf(a) == Feat && KindOf(b) == Feat
    ensures events == [Navigate(a)] + [Resume(0, Missing, false)] + [Resume(0, Arrived(["SR-1"]), false)]
                      + [Navigate(b)] + [Resume(0, Failed, false)]
    ensures var last := Run(START, events);
            last.scope == Some(b) && last.refs == ["SR-1"] && last.refsBy == Nav(1, a) && !Current(last)
  {
    var prefix := LeakPrefix(a);
    RunLast(START, prefix, Navigate(b));
    NextNavigation(Run(START, prefix), b);
    RunLast(START, prefix + [Navigate(b)], Resume(0, Failed, false));
    LateAbortLeaks(Run(START, prefix + [Navigate(b)]), a, b);
    events := prefix + [Navigate(b)] + [Resume(0, Failed, false)];
  }

  lemma NextNavigation(s: State, b: Scope)
    requires |s.pending| == 1 && s.navGen == 1 && KindOf(b) == Feat
    ensures Step(s, Navigate(b)).pending == [s.pending[0], Dossier(Nav(2, b))]
    ensures Step(s, Navigate(b)).scope == Some(b) && Step(s, Navigate(b)).navGen == 2
  {
  }

  lemma LateAbortLeaks(s: State, a: Scope, b: Scope)
    requires s.pending == [LegacyVcycle(Nav(1, a), ["SR-1"]), Dossier(Nav(2, b))] && s.scope == Some(b) && s.navGen == 2
    requires KindOf(a) == Feat && KindOf(b) == Feat
    ensures var last := Step(s, Resume(0, Failed, false));
            last.scope == Some(b) && last.refs == ["SR-1"] && last.refsBy == Nav(1, a) && !Current(last)
  {
  }

  // ----- Health scans

  lemma ContinueKeepsHealthGen(s: State, task: Pending, reply: Reply, onTraceTab: bool)
    ensures Continue(s, task, reply, onTraceTab).healthGen == s.healthGen
  {
  }

  lemma HealthGenGrows(s: State, e: Event)
    ensures Step(s, e).healthGen >= s.healthGen
  {
    if e.Resume? && e.i < |s.pending| {
      ContinueKeepsHealthGen(Without(s, e.i), s.pending[e.i], e.reply, e.onTraceTab);
    }
  }

  lemma {:induction false} HealthGenNeverDecreases(s: State, events: seq<Event>) returns (now: State)
    ensures now == Run(s, events) && now.healthGen >= s.healthGen
  {
    now := s;
    if events != [] {
      now := HealthGenNeverDecreases(s, events[..|events| - 1]);
      HealthGenGrows(now, events[|events| - 1]);
      now := Step(now, events[|events| - 1]);
    }
  }

  /** A navigation supersedes every scan started before it: whatever happens in between, other
      scans included, when such a scan completes or fails it changes nothing, so it never takes
      the user back to the landing page. */
  lemma NavigationSilencesScans(s: State, scope: Scope, events: seq<Event>, gen: nat, i: nat, reply: Reply,
                                onTraceTab: bool)
    requires gen <= s.healthGen
    requires var now := Run(LoadScope(s, scope), events); i < |now.pending| && now.pending[i] == Health(gen)
    ensures var now := Run(LoadScope(s, scope), events);
            Step(now, Resume(i, reply, onTraceTab)) == Without(now, i)
  {
    var now := HealthGenNeverDecreases(LoadScope(s, scope), events);
  }

  /** Of several scans only the one started last can act. */
  lemma OnlyLatestScanActs(s: State, i: nat, reply: Reply, onTraceTab: bool)
    requires Inv(s) && i < |s.pending| && s.pending[i].Health?
    requires Step(s, Resume(i, reply, onTraceTab)) != Without(s, i)
    ensures s.pending[i].gen == s.healthGen && s.healthController == Some(s.healthGen)
    ensures forall j :: 0 <= j < |s.pending| && s.pending[j].Health? ==> s.pending[j].gen <= s.pending[i].gen
  {
    forall j | 0 <= j < |s.pending| && s.pending[j].Health? ensures s.pending[j].gen <= s.healthGen {
      assert TaskFits(s, s.pending[j]);
    }
  }

  // ----- The controller itself

  /** The page's variables, updated in place by the handlers. */
  class Controller {
    var navigationGeneration: nat
    var currentScope: Option<Scope>
    var view: View
    var panels: map<Panel, Content>
    var scopeSrRefs: seq<string>
    ghost var refsBy: Nav
    var traceLoaded: bool
    ghost var traceBy: Nav
    var healthGeneration: nat
    var healthController: Option<nat>
    var pending: seq<Pending>

    ghost function Snapshot(): State
      reads this
    {
      State(navigationGeneration, currentScope, view, panels, scopeSrRefs, refsBy,
            if traceLoaded then Some(traceBy) else None, healthGeneration, healthController, pending)
    }

    constructor ()
      ensures Snapshot() == START
    {
      navigationGeneration, currentScope, view := 0, None, Landing;
      panels := AllPlaceholders(Nav(0, ""));
      scopeSrRefs, refsBy, traceLoaded, traceBy := [], Nav(0, ""), false, Nav(0, "");
      healthGeneration, healthController, pending := 0, None, [];
    }

    predicate IsCurrentNavigation(nav: Nav)
      reads this
      ensures IsCurrentNavigation(nav) == IsCurrent(Snapshot(), nav)
    {
      nav.gen == navigationGeneration && currentScope == Some(nav.scope)
    }

    method Write(where: set<Panel>, content: Content)
      modifies this`panels
      ensures Snapshot() == Put(old(Snapshot()), where, content)
    {
      panels := panels + map p | p in where :: content;
    }

    method GoToLanding()
      modifies this`view, this`currentScope
      ensures Snapshot() == ShowLanding(old(Snapshot()))
    {
      view, currentScope := Landing, None;
    }

    /** A new generation: any running health scan is cancelled. */
    method BeginNavigation(scope: Scope) returns (nav: Nav)
      modifies this`navigationGeneration, this`currentScope, this`healthGeneration, this`healthController
      ensures nav == Nav(old(navigationGeneration) + 1, scope)
      ensures Snapshot() == old(Snapshot()).(navGen := nav.gen, scope := Some(scope),
                                             healthGen := old(healthGeneration) + 1, healthController := None)
    {
      healthGeneration, healthController := healthGeneration + 1, None;
      navigationGeneration := navigationGeneration + 1;
      currentScope := Some(scope);
      nav := Nav(navigationGeneration, scope);
    }

    method ResetScopeEvidence(nav: Nav)
      modifies this`panels, this`scopeSrRefs, this`refsBy, this`traceLoaded
      ensures Snapshot() == old(Snapshot()).(panels := AllPlaceholders(nav), refs := RefsFor(nav, []), refsBy := nav,
                trace := None)
    {
      scopeSrRefs, refsBy := RefsFor(nav, []), nav;
      traceLoaded := false;
      panels := AllPlaceholders(nav);
    }

    method LoadScopeNow(scope: Scope)
      modifies this
      ensures Snapshot() == LoadScope(old(Snapshot()), scope)
    {
      var nav := BeginNavigation(scope);
      ResetScopeEvidence(nav);
      view := Workspace;
      pending := pending + [if OnePanel(KindOf(scope)) then Single(nav) else Dossier(nav)];
    }

    method Catch(nav: Nav)
      modifies this`view, this`currentScope
      ensures Snapshot() == Fail(old(Snapshot()), nav)
    {
      if IsCurrentNavigation(nav) {
        GoToLanding();
      }
    }

    method ContinueSingle(nav: Nav, reply: Reply)
      modifies this
      ensures Snapshot() == ResumeSingle(old(Snapshot()), nav, reply)
    {
      if !reply.Arrived? {
        Catch(nav);
      } else if IsCurrentNavigation(nav) {
        Write({MainPanel(KindOf(nav.scope))}, Evidence(nav));
        Write(OtherPanels(KindOf(nav.scope)), Placeholder(nav));
      }
    }

    method RenderBundleBase(nav: Nav)
      modifies this`panels
      ensures Snapshot() == RenderBase(old(Snapshot()), nav)
    {
      Write({MainPanel(KindOf(nav.scope)), Matrix, Timeline, Guide}, Evidence(nav));
      Write({Story, Reverse}, Placeholder(nav));
    }

    method FinishBundleScopeLoad(nav: Nav, rows: seq<string>)
      modifies this
      ensures Snapshot() == Finish(old(Snapshot()), nav, rows)
    {
      scopeSrRefs, refsBy := RefsFor(nav, rows), nav;
      pending := pending + [TraversalFetch(nav)];
    }

    method LoadDossierScope(nav: Nav, reply: Reply)
      modifies this
      ensures Snapshot() == ResumeDossier(old(Snapshot()), nav, reply)
    {
      if reply.Missing? {
        pending := pending + [LegacyBase(nav)];
      } else if reply.Failed? {
        Catch(nav);
      } else if IsCurrentNavigation(nav) {
        var kind := KindOf(nav.scope);
        RenderBundleBase(nav);
        Write({Vcycle}, if kind == Feat || kind == Sr then Evidence(nav) else Placeholder(nav));
        Write({Validation}, if kind == Sr then Evidence(nav) else Placeholder(nav));
        FinishBundleScopeLoad(nav, reply.rows);
      }
    }

    method LoadBundleScopeLegacy(nav: Nav, reply: Reply)
      modifies this
      ensures Snapshot() == ResumeLegacyBase(old(Snapshot()), nav, reply)
    {
      if !reply.Arrived? {
        Catch(nav);
      } else if IsCurrentNavigation(nav) {
        RenderBundleBase(nav);
        if KindOf(nav.scope) == Bundle {
          Write({Vcycle, Validation}, Placeholder(nav));
          FinishBundleScopeLoad(nav, reply.rows);
        } else {
          pending := pending + [LegacyVcycle(nav, reply.rows)];
        }
      }
    }

    method WriteIfCurrent(nav: Nav, where: Panel, reply: Reply)
      modifies this`panels
      ensures Snapshot() == Guarded(old(Snapshot()), nav, where, reply)
    {
      if IsCurrentNavigation(nav) {
        Write({where}, if reply.Arrived? then Evidence(nav) else Placeholder(nav));
      }
    }

    method ContinueLegacyVcycle(nav: Nav, rows: seq<string>, reply: Reply)
      modifies this
      ensures Snapshot() == ResumeLegacyVcycle(old(Snapshot()), nav, rows, reply)
    {
      WriteIfCurrent(nav, Vcycle, reply);
      if KindOf(nav.scope) == Sr {
        pending := pending + [LegacyValidation(nav, rows)];
      } else {
        Write({Validation}, Placeholder(nav));
        FinishBundleScopeLoad(nav, rows);
      }
    }

    method OpenTraceMap(nav: Nav)
      modifies this
      ensures Snapshot() == LoadTrace(old(Snapshot()), nav)
    {
      if IsCurrentNavigation(nav) {
        if scopeSrRefs == [] {
          Write({Trace}, Placeholder(nav));
        } else if traceLoaded {
          Write({Trace}, TraceMap(nav, scopeSrRefs));
        } else {
          pending := pending + [Graph(nav, scopeSrRefs)];
        }
      }
    }

    method ContinueGraph(nav: Nav, refs: seq<string>, reply: Reply)
      modifies this
      ensures Snapshot() == ResumeGraph(old(Snapshot()), nav, refs, reply)
    {
      if IsCurrentNavigation(nav) {
        if reply.Arrived? {
          traceLoaded, traceBy := true, nav;
          Write({Trace}, TraceMap(nav, refs));
        } else {
          Write({Trace}, Placeholder(nav));
        }
      }
    }

    method FinishHealth(gen: nat)
      modifies this
      ensures Snapshot() == ResumeHealth(old(Snapshot()), gen)
    {
      if gen == healthGeneration && healthController == Some(gen) {
        GoToLanding();
        healthController := None;
      }
    }

    method GoHome()
      modifies this
      ensures Snapshot() == Step(old(Snapshot()), Home)
    {
      navigationGeneration := navigationGeneration + 1;
      GoToLanding();
    }

    method CheckHealth()
      modifies this
      ensures Snapshot() == Step(old(Snapshot()), StartHealth)
    {
      healthGeneration := healthGeneration + 1;
      healthController := Some(healthGeneration);
      pending := pending + [Health(healthGeneration)];
    }

    method ToggleVocabularyView()
      modifies this
      ensures Snapshot() == Step(old(Snapshot()), ToggleVocabulary)
    {
      if view != Vocabulary {
        view := Vocabulary;
      } else if currentScope != None {
        view := Workspace;
      } else {
        GoToLanding();
      }
    }

    method Handle(e: Event)
      modifies this
      ensures Snapshot() == Step(old(Snapshot()), e)
    {
      match e
      case Navigate(scope) => LoadScopeNow(scope);
      case Home => GoHome();
      case StartHealth => CheckHealth();
      case ToggleVocabulary => ToggleVocabularyView();
      case OpenTrace =>
        if currentScope != None {
          OpenTraceMap(Nav(navigationGeneration, currentScope.value));
        }
      case Resume(i, reply, onTraceTab) =>
        if i < |pending| {
          var task := pending[i];
          pending := pending[..i] + pending[i + 1..];
          Dispatch(task, reply, onTraceTab);
        }
    }

    method Dispatch(task: Pending, reply: Reply, onTraceTab: bool)
      modifies this
      ensures Snapshot() == Continue(old(Snapshot()), task, reply, onTraceTab)
    {
      match task
      case Single(nav) => ContinueSingle(nav, reply);
      case Dossier(nav) => LoadDossierScope(nav, reply);
      case LegacyBase(nav) => LoadBundleScopeLegacy(nav, reply);
      case LegacyVcycle(nav, rows) => ContinueLegacyVcycle(nav, rows, reply);
      case LegacyValidation(nav, rows) =>
        WriteIfCurrent(nav, Validation, reply);
        FinishBundleScopeLoad(nav, rows);
      case TraversalFetch(nav) =>
        WriteIfCurrent(nav, Traversal, reply);
        if onTraceTab {
          OpenTraceMap(nav);
        }
      case Graph(nav, refs) => ContinueGraph(nav, refs, reply);
      case Health(gen) => FinishHealth(gen);
    }
  }
}
