/** Observation envelopes: validated facts, round trips, and when an observation may open a gate. */
module Observations {
  import opened Artifacts
  import opened Sequences
  import opened Values
  import opened Wrappers

  datatype Outcome = Pass | Fail | Invalid | Interrupted | Unknown

  function OutcomeText(o: Outcome): string {
    match o
    case Pass => "pass"
    case Fail => "fail"
    case Invalid => "invalid"
    case Interrupted => "interrupted"
    case Unknown => "unknown"
  }

  function ReadOutcome(v: Value): Option<Outcome> {
    if v == Str("pass") then Some(Pass)
    else if v == Str("fail") then Some(Fail)
    else if v == Str("invalid") then Some(Invalid)
    else if v == Str("interrupted") then Some(Interrupted)
    else if v == Str("unknown") then Some(Unknown)
    else None
  }

  lemma OutcomeRoundTrips(o: Outcome)
    ensures ReadOutcome(Str(OutcomeText(o))) == Some(o)
  {
    var first := OutcomeText(o)[0];
    assert "pass"[0] == 'p' && "fail"[0] == 'f' && "unknown"[0] == 'u';
    assert |"invalid"| == 7 && |"interrupted"| == 11;
  }

  // ----- Diagnostics

  datatype Diagnostic = Diagnostic(code: string, summary: string)

  predicate ValidDiagnostic(d: Diagnostic) {
    NonBlank(d.code) && NonBlank(d.summary)
  }

  function DiagnosticToDict(d: Diagnostic): Value {
    Fields(true, map[Named(Code) := Str(d.code), Named(Summary) := Str(d.summary)])
  }

  function DiagnosticFromDict(v: Value): Result<Diagnostic, Error> {
    if !v.Fields? then Err(TypeError)
    else if !KnownOnly(v.fields, {Code, Summary}) || !Has(v.fields, Code) || !Has(v.fields, Summary)
    then Err(ValueError)
    else if !NonBlankStr(Get(v.fields, Code)) || !NonBlankStr(Get(v.fields, Summary)) then Err(ValueError)
    else Ok(Diagnostic(Get(v.fields, Code).s, Get(v.fields, Summary).s))
  }

  lemma DiagnosticsRoundTrip(ds: seq<Diagnostic>)
    requires forall i :: 0 <= i < |ds| ==> ValidDiagnostic(ds[i])
    ensures ParseAll(DiagnosticFromDict, Map(DiagnosticToDict, ds)) == Ok(ds)
  {
    var items := Map(DiagnosticToDict, ds);
    forall i | 0 <= i < |ds| ensures DiagnosticFromDict(items[i]) == Ok(ds[i]) {}
    ParseAllReads(DiagnosticFromDict, items, ds);
  }

  lemma ArtifactsRoundTrip(artifacts: seq<ArtifactRef>)
    requires forall i :: 0 <= i < |artifacts| ==> ValidArtifact(artifacts[i])
    ensures ParseAll(ArtifactFromDict, Map(ArtifactToDict, artifacts)) == Ok(artifacts)
  {
    var items := Map(ArtifactToDict, artifacts);
    forall i | 0 <= i < |artifacts| ensures ArtifactFromDict(items[i]) == Ok(artifacts[i]) {
      ArtifactRoundTrips(artifacts[i]);
    }
    ParseAllReads(ArtifactFromDict, items, artifacts);
  }

  // ----- Facts and their validators

  /** A facts object names its schema. */
  predicate FactsOk(v: Value) {
    v.Fields? && NonBlankStr(Get(v.fields, Schema))
  }

  /** A validator accepts, or rejects with a message. */
  type Validator = Value -> Option<string>

  type Validators = map<string, Validator>

  /** Why the registry refuses the facts, if it does. */
  function Refusal(registry: Validators, facts: Value): Option<string>
    requires FactsOk(facts)
  {
    var schema := Get(facts.fields, Schema).s;
    if schema !in registry then Some("unknown facts schema '" + schema + "'")
    else if registry[schema](facts) != None then Some("facts validation rejected: " + registry[schema](facts).value)
    else None
  }

  /** What validating answers: facts that are no facts object are an error of their own. */
  datatype Judgement = Accepts | Refuses(reason: string) | Malformed

  class PayloadRegistry {
    var validators: Validators

    constructor ()
      ensures validators == map[]
    {
      validators := map[];
    }

    /** Registering replaces the schema's validator and touches no other; a blank schema is refused. */
    method Register(schema: Value, validator: Validator) returns (ok: bool)
      modifies this
      ensures ok == NonBlankStr(schema)
      ensures validators == if ok then old(validators)[schema.s := validator] else old(validators)
    {
      ok := NonBlankStr(schema);
      if ok {
        validators := validators[schema.s := validator];
      }
    }

    method Lookup(schema: string) returns (v: Option<Validator>)
      ensures v == if schema in validators then Some(validators[schema]) else None
    {
      return if schema in validators then Some(validators[schema]) else None;
    }

    method Validate(facts: Value) returns (r: Judgement)
      ensures r == if !FactsOk(facts) then Malformed
                   else if Refusal(validators, facts) == None then Accepts
                   else Refuses(Refusal(validators, facts).value)
    {
      if !FactsOk(facts) {
        return Malformed;
      }
      var schema := Get(facts.fields, Schema).s;
      var validator := Lookup(schema);
      if validator == None {
        return Refuses("unknown facts schema '" + schema + "'");
      }
      var message := validator.value(facts);
      return if message == None then Accepts else Refuses("facts validation rejected: " + message.value);
    }
  }

  // ----- Envelopes

  datatype Envelope = Envelope(
    id: string, kind: string, producer: ProducerRef, observedAt: string, scopeRefs: seq<string>,
    inputs: seq<InputRef>, outcome: Outcome, facts: Value, diagnostics: seq<Diagnostic>,
    artifacts: seq<ArtifactRef>, gateEligible: bool)

  function ArtifactRefs(artifacts: seq<ArtifactRef>): seq<string> {
    seq(|artifacts|, i requires 0 <= i < |artifacts| => artifacts[i].ref)
  }

  predicate ValidEnvelope(e: Envelope, c: Checks) {
    && NonBlank(e.id) && NonBlank(e.kind) && ValidProducer(e.producer, c)
    && NonBlank(e.observedAt) && c.utc(e.observedAt) && RefsOk(e.scopeRefs) && InputsOk(e.inputs)
    && FactsOk(e.facts) && Freezable(e.facts) && Uniform(e.facts, false)
    && (forall i :: 0 <= i < |e.diagnostics| ==> ValidDiagnostic(e.diagnostics[i]))
    && (forall i :: 0 <= i < |e.artifacts| ==> ValidArtifact(e.artifacts[i]))
    && Distinct(ArtifactRefs(e.artifacts))
  }

  /** The typed parts of an envelope. */
  datatype Refs = Refs(producer: ProducerRef, inputs: seq<InputRef>, diagnostics: seq<Diagnostic>,
      artifacts: seq<ArtifactRef>)

  /** The untyped rest. */
  datatype Scalars = Scalars(schema: Value, id: Value, kind: Value, observedAt: Value, scopes: Value, outcome: Value,
      facts: Value)

  /** Construction: every new envelope starts out not eligible. */
  function MakeEnvelope(r: Refs, s: Scalars, c: Checks): Result<Envelope, Error> {
    if s.schema != Int(1) || !NonBlankStr(s.id) || !NonBlankStr(s.kind) || !UtcStr(s.observedAt, c) then Err(ValueError)
    else if OrderedRefs(s.scopes).Err? then Err(OrderedRefs(s.scopes).error)
    else if !Distinct(InputRefs(r.inputs)) || ReadOutcome(s.outcome) == None then Err(ValueError)
    else if !FactsOk(s.facts) || !Freezable(s.facts) then Err(TypeError)
    else if !Distinct(ArtifactRefs(r.artifacts)) then Err(ValueError)
    else
      Ok(Envelope(s.id.s, s.kind.s, r.producer, s.observedAt.s, OrderedRefs(s.scopes).value, r.inputs,
                  ReadOutcome(s.outcome).value, Frozen(s.facts), r.diagnostics, r.artifacts, false))
  }

  function EnvelopeToDict(e: Envelope): Value {
    Fields(true, map[
      Named(Schema) := Int(1), Named(Id) := Str(e.id), Named(Kind) := Str(e.kind),
      Named(Producer) := ProducerToDict(e.producer), Named(ObservedAt) := Str(e.observedAt),
      Named(ScopeRefs) := Items(true, Strs(e.scopeRefs)), Named(Inputs) := Items(true, Map(InputToDict, e.inputs)),
      Named(OutcomeField) := Str(OutcomeText(e.outcome)), Named(Facts) := Thaw(e.facts),
      Named(Diagnostics) := Items(true, Map(DiagnosticToDict, e.diagnostics)),
      Named(Artifacts) := Items(true, Map(ArtifactToDict, e.artifacts))])
  }

  /** The typed parts, read in the order the constructor's arguments are evaluated. */
  function ReadRefs(fields: map<Key, Value>, c: Checks): Result<Refs, Error> {
    if !Has(fields, Inputs) then Err(ValueError)
    else if !Get(fields, Inputs).Items? then Err(TypeError)
    else if !Has(fields, Diagnostics) then Err(ValueError)
    else if !Get(fields, Diagnostics).Items? then Err(TypeError)
    else if !Has(fields, Artifacts) then Err(ValueError)
    else if !Get(fields, Artifacts).Items? then Err(TypeError)
    else if !Has(fields, Schema) || !Has(fields, Id) || !Has(fields, Kind) || !Has(fields, Producer)
    then Err(ValueError)
    else
      var producer := ProducerFromDict(Get(fields, Producer), c);
      if producer.Err? then Err(producer.error)
      else if !Has(fields, ObservedAt) || !Has(fields, ScopeRefs) then Err(ValueError)
      else
        var inputs := ParseInputs(Get(fields, Inputs));
        if inputs.Err? then Err(inputs.error)
        else if !Has(fields, OutcomeField) || !Has(fields, Facts) then Err(ValueError)
        else
          var diagnostics := ParseAll(DiagnosticFromDict, Get(fields, Diagnostics).items);
          var artifacts := ParseAll(ArtifactFromDict, Get(fields, Artifacts).items);
          if diagnostics.Err? then Err(diagnostics.error)
          else if artifacts.Err? then Err(artifacts.error)
          else Ok(Refs(producer.value, inputs.value, diagnostics.value, artifacts.value))
  }

  function ReadScalars(fields: map<Key, Value>): Scalars {
    Scalars(Get(fields, Schema), Get(fields, Id), Get(fields, Kind), Get(fields, ObservedAt), Get(fields, ScopeRefs),
            Get(fields, OutcomeField), Get(fields, Facts))
  }

  predicate EnvelopeFieldsOnly(fields: map<Key, Value>) {
    KnownOnly(fields, {Schema, Id, Kind, Producer, ObservedAt, ScopeRefs, Inputs, OutcomeField, Facts, Diagnostics,
        Artifacts})
  }

  /** `from_dict` without a registry. */
  function EnvelopeFromDict(v: Value, c: Checks): Result<Envelope, Error> {
    if !v.Fields? then Err(TypeError)
    else if !EnvelopeFieldsOnly(v.fields) then Err(ValueError)
    else
      match ReadRefs(v.fields, c)
      case Err(e) => Err(e)
      case Ok(r) => MakeEnvelope(r, ReadScalars(v.fields), c)
  }

  // ----- Round trip

  lemma EnvelopeFieldsAre(e: Envelope, fields: map<Key, Value>)
    requires fields == EnvelopeToDict(e).fields
    ensures EnvelopeFieldsOnly(fields)
    ensures ReadScalars(fields) ==
            Scalars(Int(1), Str(e.id), Str(e.kind), Str(e.observedAt), Items(true, Strs(e.scopeRefs)),
                    Str(OutcomeText(e.outcome)), Thaw(e.facts))
  {
  }

  predicate HasAll(fields: map<Key, Value>) {
    && Has(fields, Schema) && Has(fields, Id) && Has(fields, Kind) && Has(fields, Producer) && Has(fields, ObservedAt)
    && Has(fields, ScopeRefs) && Has(fields, Inputs) && Has(fields, OutcomeField) && Has(fields, Facts)
    && Has(fields, Diagnostics) && Has(fields, Artifacts)
  }

  predicate HoldsRefs(fields: map<Key, Value>, r: Refs) {
    && Get(fields, Producer) == ProducerToDict(r.producer)
    && Get(fields, Inputs) == Items(true, Map(InputToDict, r.inputs))
    && Get(fields, Diagnostics) == Items(true, Map(DiagnosticToDict, r.diagnostics))
    && Get(fields, Artifacts) == Items(true, Map(ArtifactToDict, r.artifacts))
  }

  lemma EnvelopeHoldsRefs(e: Envelope, fields: map<Key, Value>)
    requires fields == EnvelopeToDict(e).fields
    ensures HasAll(fields) && HoldsRefs(fields, Refs(e.producer, e.inputs, e.diagnostics, e.artifacts))
  {
  }

  lemma HeldRefsRead(fields: map<Key, Value>, r: Refs, c: Checks)
    requires HasAll(fields) && HoldsRefs(fields, r)
    requires ProducerFromDict(ProducerToDict(r.producer), c) == Ok(r.producer)
    requires ParseInputs(Items(true, Map(InputToDict, r.inputs))) == Ok(r.inputs)
    requires ParseAll(DiagnosticFromDict, Map(DiagnosticToDict, r.diagnostics)) == Ok(r.diagnostics)
    requires ParseAll(ArtifactFromDict, Map(ArtifactToDict, r.artifacts)) == Ok(r.artifacts)
    ensures ReadRefs(fields, c) == Ok(r)
  {
  }

  lemma EnvelopeRefsAre(e: Envelope, fields: map<Key, Value>, c: Checks)
    requires ValidEnvelope(e, c) && fields == EnvelopeToDict(e).fields
    ensures ReadRefs(fields, c) == Ok(Refs(e.producer, e.inputs, e.diagnostics, e.artifacts))
  {
    EnvelopeHoldsRefs(e, fields);
    ProducerRoundTrips(e.producer, c);
    InputsRoundTrip(e.inputs);
    DiagnosticsRoundTrip(e.diagnostics);
    ArtifactsRoundTrip(e.artifacts);
    HeldRefsRead(fields, Refs(e.producer, e.inputs, e.diagnostics, e.artifacts), c);
  }

  lemma ThawedFacts(facts: Value)
    requires FactsOk(facts) && Freezable(facts) && Uniform(facts, false)
    ensures FactsOk(Thaw(facts)) && Freezable(Thaw(facts)) && Frozen(Thaw(facts)) == facts
  {
    FreezeUndoesThaw(facts);
    assert Thaw(facts.fields[Named(Schema)]) == facts.fields[Named(Schema)];
  }

  lemma MakeFrom(e: Envelope, s: Scalars, c: Checks)
    requires ValidEnvelope(e, c)
    requires s == Scalars(Int(1), Str(e.id), Str(e.kind), Str(e.observedAt), Items(true, Strs(e.scopeRefs)),
                          Str(OutcomeText(e.outcome)), Thaw(e.facts))
    ensures MakeEnvelope(Refs(e.producer, e.inputs, e.diagnostics, e.artifacts), s, c) == Ok(e.(gateEligible := false))
  {
    OrderedRefsReads(s.scopes, e.scopeRefs);
    OutcomeRoundTrips(e.outcome);
    ThawedFacts(e.facts);
  }

  /** Parsing what a constructed envelope serializes to gives it back, except that eligibility is
      never carried over. */
  lemma EnvelopeRoundTrips(e: Envelope, c: Checks)
    requires ValidEnvelope(e, c)
    ensures EnvelopeFromDict(EnvelopeToDict(e), c) == Ok(e.(gateEligible := false))
  {
    var fields := EnvelopeToDict(e).fields;
    EnvelopeFieldsAre(e, fields);
    EnvelopeRefsAre(e, fields, c);
    MakeFrom(e, ReadScalars(fields), c);
  }

  lemma ParsedRefsAreValid(fields: map<Key, Value>, r: Refs, c: Checks)
    requires ReadRefs(fields, c) == Ok(r)
    ensures ValidProducer(r.producer, c) && (forall i :: 0 <= i < |r.inputs| ==> ValidInput(r.inputs[i]))
    ensures forall i :: 0 <= i < |r.diagnostics| ==> ValidDiagnostic(r.diagnostics[i])
    ensures forall i :: 0 <= i < |r.artifacts| ==> ValidArtifact(r.artifacts[i])
  {
    var inputs, artifacts := Get(fields, Inputs).items, Get(fields, Artifacts).items;
    ParsedProducerSerializesBack(Get(fields, Producer), r.producer, c);
    ParseAllGives(InputFromDict, inputs, r.inputs);
    ParseAllGives(DiagnosticFromDict, Get(fields, Diagnostics).items, r.diagnostics);
    ParseAllGives(ArtifactFromDict, artifacts, r.artifacts);
    forall i | 0 <= i < |r.inputs| ensures ValidInput(r.inputs[i]) {
      ParsedInputSerializesBack(inputs[i], r.inputs[i]);
    }
    forall i | 0 <= i < |r.artifacts| ensures ValidArtifact(r.artifacts[i]) {
      ParsedArtifactSerializesBack(artifacts[i], r.artifacts[i]);
    }
  }

  lemma FrozenFacts(facts: Value)
    requires FactsOk(facts) && Freezable(facts)
    ensures FactsOk(Frozen(facts)) && Freezable(Frozen(facts)) && Uniform(Frozen(facts), false)
  {
    FrozenIsImmutable(facts);
    assert Frozen(facts.fields[Named(Schema)]) == facts.fields[Named(Schema)];
  }

  /** Whatever parses is a valid envelope, its facts frozen, and not yet eligible. */
  lemma ParsedEnvelopeIsValid(v: Value, e: Envelope, c: Checks)
    requires EnvelopeFromDict(v, c) == Ok(e)
    ensures ValidEnvelope(e, c) && !e.gateEligible
  {
    var s := ReadScalars(v.fields);
    ParsedRefsAreValid(v.fields, ReadRefs(v.fields, c).value, c);
    OrderedRefsReads(s.scopes, e.scopeRefs);
    FrozenFacts(s.facts);
  }

  lemma DiagnosticSerializesBack(v: Value, d: Diagnostic)
    requires DiagnosticFromDict(v) == Ok(d)
    ensures Represents(v, DiagnosticToDict(d))
  {
  }

  lemma DiagnosticsSerializeBack(items: seq<Value>, ds: seq<Diagnostic>, v: Value)
    requires ParseAll(DiagnosticFromDict, items) == Ok(ds) && v.Items? && v.items == items
    ensures RepresentsAll(v, Items(true, Map(DiagnosticToDict, ds)))
  {
    ParseAllGives(DiagnosticFromDict, items, ds);
    forall i | 0 <= i < |ds| ensures Represents(items[i], DiagnosticToDict(ds[i])) {
      DiagnosticSerializesBack(items[i], ds[i]);
    }
  }

  lemma ArtifactsSerializeBack(items: seq<Value>, artifacts: seq<ArtifactRef>, v: Value)
    requires ParseAll(ArtifactFromDict, items) == Ok(artifacts) && v.Items? && v.items == items
    ensures RepresentsAll(v, Items(true, Map(ArtifactToDict, artifacts)))
  {
    ParseAllGives(ArtifactFromDict, items, artifacts);
    forall i | 0 <= i < |artifacts| ensures Represents(items[i], ArtifactToDict(artifacts[i])) {
      ParsedArtifactSerializesBack(items[i], artifacts[i]);
    }
  }

  lemma ReadRefsHold(fields: map<Key, Value>, r: Refs, c: Checks)
    requires ReadRefs(fields, c) == Ok(r)
    ensures HasAll(fields)
    ensures ProducerFromDict(Get(fields, Producer), c) == Ok(r.producer)
    ensures ParseInputs(Get(fields, Inputs)) == Ok(r.inputs)
    ensures Get(fields, Diagnostics).Items? &&
              ParseAll(DiagnosticFromDict, Get(fields, Diagnostics).items) == Ok(r.diagnostics)
    ensures Get(fields, Artifacts).Items? && ParseAll(ArtifactFromDict, Get(fields, Artifacts).items) == Ok(r.artifacts)
  {
  }

  /** What the nested references of a parsed envelope say. */
  lemma ParsedRefsSerializeBack(fields: map<Key, Value>, r: Refs, c: Checks)
    requires ReadRefs(fields, c) == Ok(r)
    ensures HasAll(fields)
    ensures Represents(Get(fields, Producer), ProducerToDict(r.producer))
    ensures RepresentsAll(Get(fields, Inputs), Items(true, Map(InputToDict, r.inputs)))
    ensures RepresentsAll(Get(fields, Diagnostics), Items(true, Map(DiagnosticToDict, r.diagnostics)))
    ensures RepresentsAll(Get(fields, Artifacts), Items(true, Map(ArtifactToDict, r.artifacts)))
  {
    ReadRefsHold(fields, r, c);
    ParsedProducerSerializesBack(Get(fields, Producer), r.producer, c);
    ParsedInputsSerializeBack(Get(fields, Inputs), r.inputs);
    DiagnosticsSerializeBack(Get(fields, Diagnostics).items, r.diagnostics, Get(fields, Diagnostics));
    ArtifactsSerializeBack(Get(fields, Artifacts).items, r.artifacts, Get(fields, Artifacts));
  }

  lemma OutcomeWasRead(v: Value, o: Outcome)
    requires ReadOutcome(v) == Some(o)
    ensures v == Str(OutcomeText(o))
  {
  }

  /** What the other fields of a parsed envelope say. */
  lemma MadeEnvelopeSays(r: Refs, s: Scalars, e: Envelope, c: Checks)
    requires MakeEnvelope(r, s, c) == Ok(e)
    ensures s.schema == Int(1) && s.id == Str(e.id) && s.kind == Str(e.kind) && s.observedAt == Str(e.observedAt)
    ensures Thaw(s.scopes) == Items(true, Strs(e.scopeRefs)) && s.outcome == Str(OutcomeText(e.outcome))
    ensures Thaw(s.facts) == Thaw(e.facts)
    ensures r == Refs(e.producer, e.inputs, e.diagnostics, e.artifacts)
  {
    OrderedRefsReads(s.scopes, e.scopeRefs);
    ThawOfStrs(s.scopes, e.scopeRefs);
    OutcomeWasRead(s.outcome, e.outcome);
    ThawAfterFreeze(s.facts);
  }

  predicate IsScalar(k: Key) {
    k.Named? && k.field in {Schema, Id, Kind, ObservedAt, ScopeRefs, OutcomeField, Facts}
  }

  predicate IsNested(k: Key) {
    k.Named? && k.field in {Producer, Inputs, Diagnostics, Artifacts}
  }

  lemma EnvelopeKeys(e: Envelope, fields: map<Key, Value>, k: Key)
    requires fields == EnvelopeToDict(e).fields
    ensures k in fields <==> IsScalar(k) || IsNested(k)
  {
  }

  lemma EnvelopeScalarsAre(e: Envelope, fields: map<Key, Value>)
    requires fields == EnvelopeToDict(e).fields
    ensures Get(fields, Schema) == Int(1) && Get(fields, Id) == Str(e.id) && Get(fields, Kind) == Str(e.kind)
    ensures Get(fields, ObservedAt) == Str(e.observedAt) && Get(fields, ScopeRefs) == Items(true, Strs(e.scopeRefs))
    ensures Get(fields, OutcomeField) == Str(OutcomeText(e.outcome)) && Get(fields, Facts) == Thaw(e.facts)
  {
  }

  lemma ParsedScalarSays(was: map<Key, Value>, r: Refs, e: Envelope, c: Checks, fields: map<Key, Value>, k: Key)
    requires HasAll(was) && MakeEnvelope(r, ReadScalars(was), c) == Ok(e)
    requires fields == EnvelopeToDict(e).fields && IsScalar(k) && k in fields
    ensures k in was && Thaw(was[k]) == fields[k]
  {
    MadeEnvelopeSays(r, ReadScalars(was), e, c);
    EnvelopeScalarsAre(e, fields);
  }

  lemma ParsedNestedSays(was: map<Key, Value>, r: Refs, e: Envelope, c: Checks, fields: map<Key, Value>, k: Key)
    requires ReadRefs(was, c) == Ok(r) && r == Refs(e.producer, e.inputs, e.diagnostics, e.artifacts)
    requires fields == EnvelopeToDict(e).fields && IsNested(k) && k in fields
    ensures k in was && (Represents(was[k], fields[k]) || RepresentsAll(was[k], fields[k]))
  {
    ParsedRefsSerializeBack(was, r, c);
    EnvelopeHoldsRefs(e, fields);
  }

  lemma ParsedFieldSays(was: map<Key, Value>, r: Refs, e: Envelope, c: Checks, fields: map<Key, Value>, k: Key)
    requires ReadRefs(was, c) == Ok(r) && MakeEnvelope(r, ReadScalars(was), c) == Ok(e)
    requires fields == EnvelopeToDict(e).fields && k in fields
    ensures k in was && FieldSays(was[k], fields[k])
  {
    EnvelopeKeys(e, fields, k);
    ReadRefsHold(was, r, c);
    if IsScalar(k) {
      ParsedScalarSays(was, r, e, c, fields, k);
    } else {
      MadeEnvelopeSays(r, ReadScalars(was), e, c);
      ParsedNestedSays(was, r, e, c, fields, k);
    }
  }

  lemma KnownFieldIsWritten(was: map<Key, Value>, e: Envelope, fields: map<Key, Value>, k: Key)
    requires EnvelopeFieldsOnly(was) && fields == EnvelopeToDict(e).fields && k in was
    ensures k in fields
  {
    EnvelopeKeys(e, fields, k);
  }

  lemma EnvelopeWasRead(v: Value, e: Envelope, c: Checks) returns (r: Refs)
    requires EnvelopeFromDict(v, c) == Ok(e)
    ensures v.Fields? && EnvelopeFieldsOnly(v.fields)
    ensures ReadRefs(v.fields, c) == Ok(r) && MakeEnvelope(r, ReadScalars(v.fields), c) == Ok(e)
  {
    r := ReadRefs(v.fields, c).value;
  }

  /** Whatever parses serializes to what was parsed, up to tuples for lists and explicit nulls in
      nested references; its facts are the same tree, thawed. */
  lemma ParsedEnvelopeSerializesBack(v: Value, e: Envelope, c: Checks)
    requires EnvelopeFromDict(v, c) == Ok(e)
    ensures Spells(v, EnvelopeToDict(e)) && Thaw(Get(v.fields, Facts)) == Thaw(e.facts)
  {
    var d := EnvelopeToDict(e);
    var r := EnvelopeWasRead(v, e, c);
    MadeEnvelopeSays(r, ReadScalars(v.fields), e, c);
    SpelledBy(v.fields, r, e, c, d);
  }

  lemma SpelledBy(was: map<Key, Value>, r: Refs, e: Envelope, c: Checks, d: Value)
    requires EnvelopeFieldsOnly(was) && d == EnvelopeToDict(e)
    requires ReadRefs(was, c) == Ok(r) && MakeEnvelope(r, ReadScalars(was), c) == Ok(e)
    ensures forall k :: k in was ==> k in d.fields
    ensures forall k :: k in d.fields ==> k in was && FieldSays(was[k], d.fields[k])
  {
    forall k | k in was ensures k in d.fields { KnownFieldIsWritten(was, e, d.fields, k); }
    forall k | k in d.fields ensures k in was && FieldSays(was[k], d.fields[k]) {
      ParsedFieldSays(was, r, e, c, d.fields, k);
    }
  }

  // ----- The gate

  datatype RejectedObservation = RejectedObservation(
    id: string, kind: string, producer: ProducerRef, observedAt: string, diagnostics: seq<Diagnostic>,
        rawArtifacts: seq<Value>)

  datatype Observation = Accepted(envelope: Envelope) | Rejected(rejected: RejectedObservation)

  const REJECTED := "FACTS_VALIDATION_REJECTED"

  function RejectionOf(e: Envelope, reason: string): RejectedObservation
    requires forall i :: 0 <= i < |e.artifacts| ==> Freezable(ArtifactToDict(e.artifacts[i]))
  {
    RejectedObservation(e.id, e.kind, e.producer, e.observedAt, [Diagnostic(REJECTED, reason)] + e.diagnostics,
                        seq(|e.artifacts|, i requires 0 <= i < |e.artifacts| => Frozen(ArtifactToDict(e.artifacts[i]))))
  }

  predicate GateEligible(o: Observation) {
    match o
    case Accepted(e) => e.gateEligible
    case Rejected(_) => false
  }

  /** Rebuilds the envelope from its own fields and marks it eligible when its outcome decides. */
  function ValidateForGate(e: Envelope, registry: Validators, c: Checks): Result<Envelope, string>
    requires ValidEnvelope(e, c)
  {
    if Refusal(registry, e.facts) != None then Err(Refusal(registry, e.facts).value)
    else
      var again := MakeEnvelope(Refs(e.producer, e.inputs, e.diagnostics, e.artifacts),
                                Scalars(Int(1), Str(e.id), Str(e.kind), Str(e.observedAt),
                                    Items(false, Strs(e.scopeRefs)),
                                        Str(OutcomeText(e.outcome)), e.facts), c);
      RebuildsItself(e, c);
      Ok(again.value.(gateEligible := e.outcome == Pass || e.outcome == Fail))
  }

  lemma RebuildsItself(e: Envelope, c: Checks)
    requires ValidEnvelope(e, c)
    ensures MakeEnvelope(Refs(e.producer, e.inputs, e.diagnostics, e.artifacts),
                         Scalars(Int(1), Str(e.id), Str(e.kind), Str(e.observedAt), Items(false, Strs(e.scopeRefs)),
                                 Str(OutcomeText(e.outcome)), e.facts), c) == Ok(e.(gateEligible := false))
  {
    OrderedRefsReads(Items(false, Strs(e.scopeRefs)), e.scopeRefs);
    OutcomeRoundTrips(e.outcome);
    FrozenIsImmutable(e.facts);
  }

  /** Validation changes nothing but eligibility, which it grants exactly to the outcomes that
      decide a gate. */
  lemma ValidationKeepsEnvelope(e: Envelope, registry: Validators, c: Checks)
    requires ValidEnvelope(e, c) && Refusal(registry, e.facts) == None
    ensures ValidateForGate(e, registry, c) == Ok(e.(gateEligible := e.outcome == Pass || e.outcome == Fail))
  {
    RebuildsItself(e, c);
  }

  lemma ArtifactDictFreezes(a: ArtifactRef)
    ensures Freezable(ArtifactToDict(a))
  {
  }

  /** `from_dict` with a registry. */
  function Admit(e: Envelope, registry: Validators, c: Checks): Observation
    requires ValidEnvelope(e, c)
  {
    match ValidateForGate(e, registry, c)
    case Ok(validated) => Accepted(validated)
    case Err(reason) =>
      assert forall i :: 0 <= i < |e.artifacts| ==> Freezable(ArtifactToDict(e.artifacts[i])) by {
        forall i | 0 <= i < |e.artifacts| { ArtifactDictFreezes(e.artifacts[i]); }
      }
      Rejected(RejectionOf(e, reason))
  }

  function FromDict(v: Value, registry: Option<Validators>, c: Checks): Result<Observation, Error> {
    match EnvelopeFromDict(v, c)
    case Err(e) => Err(e)
    case Ok(e) =>
      if registry == None then Ok(Accepted(e))
      else
        ParsedEnvelopeIsValid(v, e, c);
        Ok(Admit(e, registry.value, c))
  }

  /** The facts' own schema has a registered validator, and it accepts them. */
  predicate ValidatorAccepts(registry: Validators, facts: Value)
    requires FactsOk(facts)
  {
    var schema := Get(facts.fields, Schema).s;
    schema in registry && registry[schema](facts) == None
  }

  /** An observation read with a registry is eligible exactly when its facts' registered validator
      accepted them and its outcome is pass or fail; it is rejected exactly when the validator
      is missing or refuses; read without a registry it is never eligible. */
  lemma EligibleExactlyWhenValidated(v: Value, e: Envelope, registry: Option<Validators>, c: Checks)
    requires EnvelopeFromDict(v, c) == Ok(e)
    ensures FactsOk(e.facts) && FromDict(v, registry, c).Ok?
    ensures GateEligible(FromDict(v, registry, c).value) <==>
            registry != None && ValidatorAccepts(registry.value, e.facts) && (e.outcome == Pass || e.outcome == Fail)
    ensures FromDict(v, registry, c).value.Rejected? <==> registry != None && !ValidatorAccepts(registry.value, e.facts)
  {
    ParsedEnvelopeIsValid(v, e, c);
    if registry != None && Refusal(registry.value, e.facts) == None {
      ValidationKeepsEnvelope(e, registry.value, c);
    }
  }

  /** A rejection keeps identity, diagnostics and artifacts, and leads with why. */
  lemma RejectionKeepsEvidence(e: Envelope, registry: Validators, c: Checks)
    requires ValidEnvelope(e, c) && !ValidatorAccepts(registry, e.facts)
    ensures Admit(e, registry, c).Rejected?
    ensures var r := Admit(e, registry, c).rejected;
            && r.id == e.id && r.kind == e.kind && r.producer == e.producer && r.observedAt == e.observedAt
            && r.diagnostics == [Diagnostic(REJECTED, Refusal(registry, e.facts).value)] + e.diagnostics
            && |r.rawArtifacts| == |e.artifacts|
            && forall i :: 0 <= i < |e.artifacts| ==> Thaw(r.rawArtifacts[i]) == ArtifactToDict(e.artifacts[i])
  {
    var r := Admit(e, registry, c).rejected;
    forall i | 0 <= i < |e.artifacts| ensures Thaw(r.rawArtifacts[i]) == ArtifactToDict(e.artifacts[i]) {
      ArtifactDictFreezes(e.artifacts[i]);
      ArtifactDictIsPlain(e.artifacts[i]);
      ThawUndoesFreeze(ArtifactToDict(e.artifacts[i]));
    }
  }

  lemma ArtifactDictIsPlain(a: ArtifactRef)
    ensures Uniform(ArtifactToDict(a), true)
  {
  }
}
