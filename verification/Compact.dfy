/** The compact view of an observation: rendered from redacted values only, then cut to a budget. */
module Compact {
  import opened Artifacts
  import opened Decimals
  import opened Observations
  import opened Projections
  import opened Sequences
  import opened Values
  import opened Wrappers

  /** `render` writes a value as JSON; `keyText` names a fact and `order` sorts the names of a set of them. */
  datatype Writer = Writer(render: Value -> string, keyText: Key -> string, order: set<Key> -> seq<Key>)

  /** What the compact view reads of an observation. Artifacts are the dicts of artifact references. */
  datatype Source = Source(
    id: string, outcome: Outcome, scopeRefs: seq<string>, inputRefs: seq<string>, facts: map<Key, Value>,
    diagnostics: seq<Diagnostic>, artifacts: seq<Value>)

  function SourceOf(o: Observation): Source
    requires o.Accepted? ==> o.envelope.facts.Fields?
  {
    match o
    case Accepted(e) =>
      Source(e.id, e.outcome, e.scopeRefs, InputRefs(e.inputs), e.facts.fields, e.diagnostics,
             Map(ArtifactToDict, e.artifacts))
    case Rejected(r) => Source(r.id, Invalid, [], [], map[], r.diagnostics, Map(Thaw, r.rawArtifacts))
  }

  // ----- The lines

  function Texted(redactions: set<string>): string -> string {
    (s: string) => Redacted(Str(s), redactions).s
  }

  /** `value_text` */
  function ValueText(v: Value, redactions: set<string>, w: Writer): string {
    w.render(Redacted(v, redactions))
  }

  function Semicolons(parts: seq<string>): string {
    if parts == [] then ""
    else if |parts| == 1 then parts[0]
    else Semicolons(parts[..|parts| - 1]) + ";" + parts[|parts| - 1]
  }

  /** A line whose list is empty is left out. */
  function ListLine(name: string, refs: seq<string>, redactions: set<string>, w: Writer): seq<string> {
    if refs == [] then [] else [name + ValueText(Items(true, Strs(refs)), redactions, w)]
  }

  /** Facts of an invalid or unknown observation are not shown. */
  predicate ShowsFacts(s: Source) {
    s.outcome != Invalid && s.outcome != Unknown && s.facts != map[]
  }

  function FactText(facts: map<Key, Value>, redactions: set<string>, w: Writer): Key -> string {
    (k: Key) => w.keyText(k) + "=" + ValueText(if k in facts then facts[k] else Null, redactions, w)
  }

  function FactsLine(s: Source, redactions: set<string>, w: Writer): seq<string> {
    if !ShowsFacts(s) then []
    else ["facts=" + Semicolons(Map(FactText(s.facts, redactions, w), w.order(s.facts.Keys)))]
  }

  /** A diagnostic with its summary redacted; its code is kept. */
  function RowOf(redactions: set<string>): Diagnostic -> Diagnostic {
    (d: Diagnostic) => Diagnostic(d.code, Texted(redactions)(d.summary))
  }

  function ByCode(): (Diagnostic, Diagnostic) -> bool {
    (a: Diagnostic, b: Diagnostic) => LexOrEqual()(a.code, b.code)
  }

  function RowText(w: Writer): Diagnostic -> string {
    (d: Diagnostic) => d.code + "=" + w.render(Str(d.summary))
  }

  function DiagnosticsLine(s: Source, redactions: set<string>, w: Writer): seq<string> {
    var rows := SortBy(ByCode(), Map(RowOf(redactions), s.diagnostics));
    if rows == [] then [] else ["diagnostics=" + Semicolons(Map(RowText(w), rows))]
  }

  function TextAt(v: Value, name: FieldName): string {
    if v.Fields? && Get(v.fields, name).Str? then Get(v.fields, name).s else ""
  }

  /** Reference and location of an artifact's dict. */
  function LinkOf(): Value -> (string, string) {
    (v: Value) => (TextAt(v, Ref), TextAt(v, Location))
  }

  function ByLink(): ((string, string), (string, string)) -> bool {
    (a: (string, string), b: (string, string)) => Lex(a.0, b.0) || (a.0 == b.0 && LexOrEqual()(a.1, b.1))
  }

  function LinkText(redactions: set<string>, w: Writer): ((string, string)) -> string {
    (p: (string, string)) =>
      ValueText(Str(p.0), redactions, w) + if p.1 == "" then "" else "@" + ValueText(Str(p.1), redactions, w)
  }

  /** The list of dicts is redacted as a whole, before anything is read off it. */
  function ArtifactsLine(s: Source, redactions: set<string>, w: Writer): seq<string> {
    var dicts := Redacted(Items(true, s.artifacts), redactions).items;
    if dicts == [] then []
    else
      ["artifacts=" + Semicolons(Map(LinkText(redactions, w), SortBy(ByLink(), Map(LinkOf(), dicts))))]
  }

  function CompactLines(s: Source, freshness: Value, redactions: set<string>, w: Writer): seq<string> {
    ["source_id=" + ValueText(Str(s.id), redactions, w), "schema=1", "outcome=" + OutcomeText(s.outcome),
     "freshness=" + ValueText(freshness, redactions, w)]
    + ListLine("scope_refs=", s.scopeRefs, redactions, w)
    + ListLine("inputs=", s.inputRefs, redactions, w)
    + FactsLine(s, redactions, w)
    + DiagnosticsLine(s, redactions, w)
    + ArtifactsLine(s, redactions, w)
  }

  // ----- The view knows nothing a redaction hides

  /** The two sources differ at most in strings that the redactions declare, and in facts that are not shown. */
  ghost predicate AlikeTo(s: Source, t: Source, redactions: set<string>) {
    && Texted(redactions)(s.id) == Texted(redactions)(t.id) && s.outcome == t.outcome
    && Map(Texted(redactions), s.scopeRefs) == Map(Texted(redactions), t.scopeRefs)
    && Map(Texted(redactions), s.inputRefs) == Map(Texted(redactions), t.inputRefs)
    && (ShowsFacts(s) || ShowsFacts(t) ==>
          Redacted(Fields(true, s.facts), redactions) == Redacted(Fields(true, t.facts), redactions))
    && Map(RowOf(redactions), s.diagnostics) == Map(RowOf(redactions), t.diagnostics)
    && Redacted(Items(true, s.artifacts), redactions) == Redacted(Items(true, t.artifacts), redactions)
  }

  lemma RefsAlike(a: seq<string>, b: seq<string>, redactions: set<string>)
    requires Map(Texted(redactions), a) == Map(Texted(redactions), b)
    ensures |a| == |b| && Redacted(Items(true, Strs(a)), redactions) == Redacted(Items(true, Strs(b)), redactions)
  {
    var (v, w) := (Redacted(Items(true, Strs(a)), redactions), Redacted(Items(true, Strs(b)), redactions));
    assert |Map(Texted(redactions), a)| == |Map(Texted(redactions), b)|;
    forall i | 0 <= i < |a| ensures v.items[i] == w.items[i] {
      assert Map(Texted(redactions), a)[i] == Map(Texted(redactions), b)[i];
      assert v.items[i] == Str(Texted(redactions)(a[i])) && w.items[i] == Str(Texted(redactions)(b[i]));
    }
    ItemsAgree(v, w);
  }

  lemma ListLinesAgree(name: string, a: seq<string>, b: seq<string>, redactions: set<string>, w: Writer)
    requires Map(Texted(redactions), a) == Map(Texted(redactions), b)
    ensures ListLine(name, a, redactions, w) == ListLine(name, b, redactions, w)
  {
    RefsAlike(a, b, redactions);
  }

  lemma FactsLinesAgree(s: Source, t: Source, redactions: set<string>, w: Writer)
    requires s.outcome == t.outcome
    requires ShowsFacts(s) || ShowsFacts(t) ==>
               Redacted(Fields(true, s.facts), redactions) == Redacted(Fields(true, t.facts), redactions)
    ensures FactsLine(s, redactions, w) == FactsLine(t, redactions, w)
  {
    if ShowsFacts(s) || ShowsFacts(t) {
      var (v, u) := (Redacted(Fields(true, s.facts), redactions), Redacted(Fields(true, t.facts), redactions));
      assert v.fields.Keys == s.facts.Keys && u.fields.Keys == t.facts.Keys;
      var keys := w.order(s.facts.Keys);
      var (p, q) := (Map(FactText(s.facts, redactions, w), keys), Map(FactText(t.facts, redactions, w), keys));
      forall i | 0 <= i < |keys| ensures p[i] == q[i] {
        if keys[i] in s.facts {
          assert v.fields[keys[i]] == u.fields[keys[i]];
        }
      }
      assert p == q;
    }
  }

  /** Whatever a redaction hides, and whatever facts an invalid or unknown observation claims, the
      compact view is the same: neither its text nor its order depends on it. */
  lemma CompactHidesDeclared(s: Source, t: Source, freshness: Value, freshness': Value, redactions: set<string>,
                             w: Writer)
    requires AlikeTo(s, t, redactions) && Redacted(freshness, redactions) == Redacted(freshness', redactions)
    ensures CompactLines(s, freshness, redactions, w) == CompactLines(t, freshness', redactions, w)
  {
    assert Redacted(Str(s.id), redactions) == Redacted(Str(t.id), redactions);
    ListLinesAgree("scope_refs=", s.scopeRefs, t.scopeRefs, redactions, w);
    ListLinesAgree("inputs=", s.inputRefs, t.inputRefs, redactions, w);
    FactsLinesAgree(s, t, redactions, w);
  }

  /** So whatever facts an invalid or unknown envelope carries, its compact view is the same. */
  lemma UntrustedFactsAreHidden(e: Envelope, facts: Value, freshness: Value, redactions: set<string>, w: Writer)
    requires e.facts.Fields? && facts.Fields? && (e.outcome == Invalid || e.outcome == Unknown)
    ensures CompactLines(SourceOf(Accepted(e)), freshness, redactions, w) ==
            CompactLines(SourceOf(Accepted(e.(facts := facts))), freshness, redactions, w)
  {
    CompactHidesDeclared(SourceOf(Accepted(e)), SourceOf(Accepted(e.(facts := facts))), freshness, freshness,
        redactions, w);
  }

  // ----- The view

  /** The lines as text, cut to the budget. */
  method CompactView(s: Source, freshness: Value, maxChars: int, redactions: set<string>, w: Writer)
    returns (r: Result<(string, bool), CompactError>)
    ensures r.Err? <==> maxChars < 0
    ensures r.Ok? ==>
              var full := JoinLines(CompactLines(s, freshness, redactions, w));
              && |r.value.0| <= maxChars && (r.value.1 <==> |full| > maxChars)
              && if r.value.1 then LongestCut(SplitLines(full), maxChars, r.value.0) else r.value.0 == full
  {
    r := AgentCompact(JoinLines(CompactLines(s, freshness, redactions, w)), maxChars);
  }
}
