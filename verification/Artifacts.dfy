/** Immutable references: what their constructors accept, and that serializing and parsing are
    inverse. */
module Artifacts {
  import opened Sequences
  import opened Values
  import opened Wrappers

  datatype Error = TypeError | ValueError

  /** Checks taken as given: version strings and UTC ISO-8601 timestamps. */
  datatype Checks = Checks(version: string -> bool, utc: string -> bool)

  // ----- Field checks

  /** Python `str.isspace`, character by character. */
  predicate IsSpace(c: char) {
    || '\t' <= c <= '\r' || '\U{1c}' <= c <= '\U{20}' || c == '\U{85}' || c == '\U{a0}' || c == '\U{1680}'
    || '\U{2000}' <= c <= '\U{200a}' || c == '\U{2028}' || c == '\U{2029}' || c == '\U{202f}' || c == '\U{205f}' ||
        c == '\U{3000}'
  }

  predicate NonBlank(s: string) {
    exists i :: 0 <= i < |s| && !IsSpace(s[i])
  }

  predicate NonBlankStr(v: Value) {
    v.Str? && NonBlank(v.s)
  }

  predicate IsHex(c: char) {
    '0' <= c <= '9' || 'a' <= c <= 'f'
  }

  predicate IsHash(s: string) {
    |s| == 71 && s[..7] == "sha256:" && forall i :: 7 <= i < 71 ==> IsHex(s[i])
  }

  predicate HashStr(v: Value) {
    v.Str? && IsHash(v.s)
  }

  predicate OptionalStr(v: Value) {
    v.Null? || v.Str?
  }

  predicate Distinct(refs: seq<string>) {
    forall i, j :: 0 <= i < j < |refs| ==> refs[i] != refs[j]
  }

  predicate RefsOk(refs: seq<string>) {
    Distinct(refs) && forall i :: 0 <= i < |refs| ==> NonBlank(refs[i])
  }

  function Strs(refs: seq<string>): (r: seq<Value>)
    ensures |r| == |refs|
  {
    seq(|refs|, i requires 0 <= i < |refs| => Str(refs[i]))
  }

  function Texts(items: seq<Value>): (r: seq<string>)
    requires forall i :: 0 <= i < |items| ==> items[i].Str?
    ensures |r| == |items|
  {
    seq(|items|, i requires 0 <= i < |items| => items[i].s)
  }

  /** An ordered list of unique nonblank references. */
  function OrderedRefs(v: Value): Result<seq<string>, Error> {
    if !v.Items? then Err(TypeError)
    else if exists i :: 0 <= i < |v.items| && !NonBlankStr(v.items[i]) then Err(ValueError)
    else if !Distinct(Texts(v.items)) then Err(ValueError)
    else Ok(Texts(v.items))
  }

  lemma OrderedRefsReads(v: Value, refs: seq<string>)
    ensures OrderedRefs(v) == Ok(refs) <==> v.Items? && v.items == Strs(refs) && RefsOk(refs)
  {
    if v.Items? && v.items == Strs(refs) && RefsOk(refs) {
      assert Texts(v.items) == refs;
    }
    if OrderedRefs(v) == Ok(refs) {
      assert v.items == Strs(refs);
      forall i | 0 <= i < |refs| ensures NonBlank(refs[i]) {
        assert NonBlankStr(v.items[i]);
      }
    }
  }

  function OptionOf(v: Value): Option<string>
    requires OptionalStr(v)
  {
    if v.Null? then None else Some(v.s)
  }

  // ----- Dictionaries

  /** `raw.get(name)` */
  function Get(fields: map<Key, Value>, name: FieldName): Value {
    if Named(name) in fields then fields[Named(name)] else Null
  }

  predicate Has(fields: map<Key, Value>, name: FieldName) {
    Named(name) in fields
  }

  predicate KnownOnly(fields: map<Key, Value>, allowed: set<FieldName>) {
    forall k :: k in fields ==> k.Named? && k.field in allowed
  }

  function WithOptional(fields: map<Key, Value>, name: FieldName, v: Option<string>): map<Key, Value> {
    if v == None then fields else fields[Named(name) := Str(v.value)]
  }

  /** `v` says what the serialized form `d` says: the same fields, up to tuples for lists, and no
      others but optional ones spelled out as null. */
  predicate Represents(v: Value, d: Value) {
    && v.Fields? && d.Fields?
    && (forall k :: k in d.fields ==> k in v.fields && Thaw(v.fields[k]) == d.fields[k])
    && (forall k :: k in v.fields && k !in d.fields ==> v.fields[k] == Null)
  }

  predicate RepresentsAll(v: Value, d: Value) {
    && v.Items? && d.Items? && |v.items| == |d.items|
    && forall i :: 0 <= i < |v.items| ==> Represents(v.items[i], d.items[i])
  }

  predicate FieldSays(v: Value, d: Value) {
    Thaw(v) == d || Represents(v, d) || RepresentsAll(v, d)
  }

  /** The same for a serialized form with references nested in its fields. */
  predicate Spells(v: Value, d: Value) {
    && v.Fields? && d.Fields?
    && (forall k :: k in d.fields ==> k in v.fields && FieldSays(v.fields[k], d.fields[k]))
    && (forall k :: k in v.fields && k !in d.fields ==> v.fields[k] == Null)
  }

  lemma ThawOfStrs(v: Value, refs: seq<string>)
    requires v.Items? && v.items == Strs(refs)
    ensures Thaw(v) == Items(true, Strs(refs))
  {
    forall i | 0 <= i < |refs| ensures Thaw(v).items[i] == Strs(refs)[i] {
      assert v.items[i] == Str(refs[i]);
    }
    ItemsAgree(Thaw(v), Items(true, Strs(refs)));
  }

  // ----- ArtifactRef

  datatype ArtifactRef = ArtifactRef(
    kind: string, ref: string, location: string, contentHash: string, scopeRefs: seq<string>, mediaType: Option<string>)

  predicate ValidArtifact(a: ArtifactRef) {
    NonBlank(a.kind) && NonBlank(a.ref) && NonBlank(a.location) && IsHash(a.contentHash) && RefsOk(a.scopeRefs)
  }

  function MakeArtifact(schema: Value, kind: Value, ref: Value, location: Value, hash: Value, scopes: Value,
                        media: Value)
    : Result<ArtifactRef, Error>
  {
    if schema != Int(1) || !NonBlankStr(kind) || !NonBlankStr(ref) || !NonBlankStr(location) || !HashStr(hash)
    then Err(ValueError)
    else if OrderedRefs(scopes).Err? then Err(OrderedRefs(scopes).error)
    else if !OptionalStr(media) then Err(TypeError)
    else Ok(ArtifactRef(kind.s, ref.s, location.s, hash.s, OrderedRefs(scopes).value, OptionOf(media)))
  }

  function ArtifactToDict(a: ArtifactRef): Value {
    Fields(true, WithOptional(
      map[Named(Schema) := Int(1), Named(Kind) := Str(a.kind), Named(Ref) := Str(a.ref),
          Named(Location) := Str(a.location), Named(ContentHash) := Str(a.contentHash),
          Named(ScopeRefs) := Items(true, Strs(a.scopeRefs))],
      MediaType, a.mediaType))
  }

  function ArtifactFromDict(v: Value): Result<ArtifactRef, Error> {
    if !v.Fields? then Err(TypeError)
    else if !KnownOnly(v.fields, {Schema, Kind, Ref, Location, ContentHash, ScopeRefs, MediaType}) then Err(ValueError)
    else if !(&& Has(v.fields, Schema) && Has(v.fields, Kind) && Has(v.fields, Ref) && Has(v.fields, Location)
              && Has(v.fields, ContentHash) && Has(v.fields, ScopeRefs)) then Err(ValueError)
    else
      MakeArtifact(Get(v.fields, Schema), Get(v.fields, Kind), Get(v.fields, Ref), Get(v.fields, Location),
                   Get(v.fields, ContentHash), Get(v.fields, ScopeRefs), Get(v.fields, MediaType))
  }

  /** Parsing the serialized form of a constructed artifact reference gives it back. */
  lemma ArtifactRoundTrips(a: ArtifactRef)
    requires ValidArtifact(a)
    ensures ArtifactFromDict(ArtifactToDict(a)) == Ok(a)
  {
    OrderedRefsReads(Items(true, Strs(a.scopeRefs)), a.scopeRefs);
  }

  lemma ParsedArtifactFields(v: Value, a: ArtifactRef)
    requires ArtifactFromDict(v) == Ok(a)
    ensures v.Fields? && KnownOnly(v.fields, {Schema, Kind, Ref, Location, ContentHash, ScopeRefs, MediaType})
    ensures Has(v.fields, Schema) && Get(v.fields, Schema) == Int(1)
    ensures Has(v.fields, Kind) && Get(v.fields, Kind) == Str(a.kind) && NonBlank(a.kind)
    ensures Has(v.fields, Ref) && Get(v.fields, Ref) == Str(a.ref) && NonBlank(a.ref)
    ensures Has(v.fields, Location) && Get(v.fields, Location) == Str(a.location) && NonBlank(a.location)
    ensures Has(v.fields, ContentHash) && Get(v.fields, ContentHash) == Str(a.contentHash) && IsHash(a.contentHash)
    ensures Has(v.fields, ScopeRefs) && OrderedRefs(Get(v.fields, ScopeRefs)) == Ok(a.scopeRefs)
    ensures Get(v.fields, MediaType) == if a.mediaType == None then Null else Str(a.mediaType.value)
  {
  }

  lemma ParsedArtifactHasNoMore(v: Value, a: ArtifactRef, k: Key)
    requires ArtifactFromDict(v) == Ok(a) && k in v.fields && k !in ArtifactToDict(a).fields
    ensures v.fields[k] == Null
  {
    ParsedArtifactFields(v, a);
    assert k == Named(MediaType);
  }

  lemma ParsedArtifactHasAll(v: Value, a: ArtifactRef, k: Key)
    requires ArtifactFromDict(v) == Ok(a) && k in ArtifactToDict(a).fields
    ensures k in v.fields && Thaw(v.fields[k]) == ArtifactToDict(a).fields[k]
  {
    ParsedArtifactFields(v, a);
    OrderedRefsReads(Get(v.fields, ScopeRefs), a.scopeRefs);
    ThawOfStrs(Get(v.fields, ScopeRefs), a.scopeRefs);
  }

  /** And whatever parses is valid and serializes to what was parsed. */
  lemma ParsedArtifactSerializesBack(v: Value, a: ArtifactRef)
    requires ArtifactFromDict(v) == Ok(a)
    ensures ValidArtifact(a) && Represents(v, ArtifactToDict(a))
  {
    var d := ArtifactToDict(a);
    forall k | k in v.fields && k !in d.fields { ParsedArtifactHasNoMore(v, a, k); }
    forall k | k in d.fields { ParsedArtifactHasAll(v, a, k); }
    OrderedRefsReads(Get(v.fields, ScopeRefs), a.scopeRefs);
  }

  // ----- SnapshotInputRef

  datatype InputRef = InputRef(ref: string, contentHash: Option<string>)

  predicate ValidInput(a: InputRef) {
    NonBlank(a.ref) && (a.contentHash != None ==> IsHash(a.contentHash.value))
  }

  function MakeInput(ref: Value, hash: Value): Result<InputRef, Error> {
    if !NonBlankStr(ref) || !(hash.Null? || HashStr(hash)) then Err(ValueError)
    else Ok(InputRef(ref.s, OptionOf(hash)))
  }

  function InputToDict(a: InputRef): Value {
    Fields(true, WithOptional(map[Named(Ref) := Str(a.ref)], ContentHash, a.contentHash))
  }

  function InputFromDict(v: Value): Result<InputRef, Error> {
    if !v.Fields? then Err(TypeError)
    else if !KnownOnly(v.fields, {Ref, ContentHash}) || !Has(v.fields, Ref) then Err(ValueError)
    else MakeInput(Get(v.fields, Ref), Get(v.fields, ContentHash))
  }

  lemma InputRoundTrips(a: InputRef)
    requires ValidInput(a)
    ensures InputFromDict(InputToDict(a)) == Ok(a)
  {
  }

  lemma ParsedInputSerializesBack(v: Value, a: InputRef)
    requires InputFromDict(v) == Ok(a)
    ensures ValidInput(a) && Represents(v, InputToDict(a))
  {
  }

  // ----- ProducerRef

  datatype ProducerRef = ProducerRef(name: string, version: Value, engine: Option<string>)

  predicate IsVersion(v: Value, c: Checks) {
    match v
    case Int(n) => n > 0
    case Float(x) => x > 0.0
    case Str(s) => c.version(s)
    case _ => false
  }

  predicate ValidProducer(a: ProducerRef, c: Checks) {
    NonBlank(a.name) && IsVersion(a.version, c)
  }

  function MakeProducer(name: Value, version: Value, engine: Value, c: Checks): Result<ProducerRef, Error> {
    if !NonBlankStr(name) || !IsVersion(version, c) then Err(ValueError)
    else if !OptionalStr(engine) then Err(TypeError)
    else Ok(ProducerRef(name.s, version, OptionOf(engine)))
  }

  function ProducerToDict(a: ProducerRef): Value {
    Fields(true, WithOptional(map[Named(ProducerName) := Str(a.name), Named(Version) := a.version], Engine, a.engine))
  }

  function ProducerFromDict(v: Value, c: Checks): Result<ProducerRef, Error> {
    if !v.Fields? then Err(TypeError)
    else if !KnownOnly(v.fields, {ProducerName, Version, Engine}) then Err(ValueError)
    else if !Has(v.fields, ProducerName) || !Has(v.fields, Version) then Err(ValueError)
    else MakeProducer(Get(v.fields, ProducerName), Get(v.fields, Version), Get(v.fields, Engine), c)
  }

  lemma ProducerRoundTrips(a: ProducerRef, c: Checks)
    requires ValidProducer(a, c)
    ensures ProducerFromDict(ProducerToDict(a), c) == Ok(a)
  {
  }

  lemma ParsedProducerSerializesBack(v: Value, a: ProducerRef, c: Checks)
    requires ProducerFromDict(v, c) == Ok(a)
    ensures ValidProducer(a, c) && Represents(v, ProducerToDict(a))
  {
  }

  // ----- Lists of references

  function ParseAll<T>(parse: Value -> Result<T, Error>, items: seq<Value>): Result<seq<T>, Error> {
    if items == [] then Ok([])
    else if parse(items[0]).Err? then Err(parse(items[0]).error)
    else if ParseAll(parse, items[1..]).Err? then Err(ParseAll(parse, items[1..]).error)
    else Ok([parse(items[0]).value] + ParseAll(parse, items[1..]).value)
  }

  lemma {:induction false} ParseAllReads<T>(parse: Value -> Result<T, Error>, items: seq<Value>, out: seq<T>)
    requires |items| == |out| && forall i :: 0 <= i < |out| ==> parse(items[i]) == Ok(out[i])
    ensures ParseAll(parse, items) == Ok(out)
  {
    if items != [] {
      ParseAllReads(parse, items[1..], out[1..]);
      assert out == [out[0]] + out[1..];
    }
  }

  lemma {:induction false} ParseAllGives<T>(parse: Value -> Result<T, Error>, items: seq<Value>, out: seq<T>)
    requires ParseAll(parse, items) == Ok(out)
    ensures |items| == |out| && forall i :: 0 <= i < |out| ==> parse(items[i]) == Ok(out[i])
  {
    if items != [] {
      ParseAllGives(parse, items[1..], ParseAll(parse, items[1..]).value);
    }
  }

  function InputRefs(inputs: seq<InputRef>): seq<string> {
    seq(|inputs|, i requires 0 <= i < |inputs| => inputs[i].ref)
  }

  predicate InputsOk(inputs: seq<InputRef>) {
    Distinct(InputRefs(inputs)) && forall i :: 0 <= i < |inputs| ==> ValidInput(inputs[i])
  }

  function ParseInputs(v: Value): Result<seq<InputRef>, Error> {
    if !v.Items? then Err(TypeError) else ParseAll(InputFromDict, v.items)
  }

  lemma InputsRoundTrip(inputs: seq<InputRef>)
    requires forall i :: 0 <= i < |inputs| ==> ValidInput(inputs[i])
    ensures ParseInputs(Items(true, Map(InputToDict, inputs))) == Ok(inputs)
  {
    var items := Map(InputToDict, inputs);
    forall i | 0 <= i < |inputs| ensures InputFromDict(items[i]) == Ok(inputs[i]) {
      InputRoundTrips(inputs[i]);
    }
    ParseAllReads(InputFromDict, items, inputs);
  }

  // ----- SnapshotRef

  datatype SnapshotRef = SnapshotRef(
    kind: string, ref: string, fingerprint: string, producer: ProducerRef, inputs: seq<InputRef>,
    generatedAt: string, supersedes: Option<string>)

  predicate ValidSnapshot(a: SnapshotRef, c: Checks) {
    && NonBlank(a.kind) && NonBlank(a.ref) && NonBlank(a.fingerprint) && ValidProducer(a.producer, c)
    && a.inputs != [] && InputsOk(a.inputs) && NonBlank(a.generatedAt) && c.utc(a.generatedAt)
    && (a.supersedes != None ==> NonBlank(a.supersedes.value) && a.supersedes.value != a.ref)
  }

  predicate UtcStr(v: Value, c: Checks) {
    NonBlankStr(v) && c.utc(v.s)
  }

  function MakeSnapshot(schema: Value, kind: Value, ref: Value, fingerprint: Value, producer: ProducerRef,
                        inputs: seq<InputRef>, generatedAt: Value, supersedes: Value, c: Checks)
    : Result<SnapshotRef, Error>
  {
    if schema != Int(1) || !NonBlankStr(kind) || !NonBlankStr(ref) || !NonBlankStr(fingerprint) then Err(ValueError)
    else if inputs == [] || !Distinct(InputRefs(inputs)) || !UtcStr(generatedAt, c) then Err(ValueError)
    else if !supersedes.Null? && (!NonBlankStr(supersedes) || supersedes == ref) then Err(ValueError)
    else Ok(SnapshotRef(kind.s, ref.s, fingerprint.s, producer, inputs, generatedAt.s, OptionOf(supersedes)))
  }

  function SnapshotToDict(a: SnapshotRef): Value {
    Fields(true, WithOptional(
      map[Named(Schema) := Int(1), Named(Kind) := Str(a.kind), Named(Ref) := Str(a.ref),
          Named(Fingerprint) := Str(a.fingerprint), Named(Producer) := ProducerToDict(a.producer),
          Named(Inputs) := Items(true, Map(InputToDict, a.inputs)), Named(GeneratedAt) := Str(a.generatedAt)],
      Supersedes, a.supersedes))
  }

  /** Fields are read in the order the constructor's arguments are evaluated, the inputs first. */
  function SnapshotFromDict(v: Value, c: Checks): Result<SnapshotRef, Error> {
    if !v.Fields? then Err(TypeError)
    else if !KnownOnly(v.fields, {Schema, Kind, Ref, Fingerprint, Producer, Inputs, GeneratedAt, Supersedes})
    then Err(ValueError)
    else if !Has(v.fields, Inputs) then Err(ValueError)
    else
      var inputs := ParseInputs(Get(v.fields, Inputs));
      if inputs.Err? then Err(inputs.error)
      else if !(&& Has(v.fields, Schema) && Has(v.fields, Kind) && Has(v.fields, Ref) && Has(v.fields, Fingerprint)
                && Has(v.fields, Producer)) then Err(ValueError)
      else
        var producer := ProducerFromDict(Get(v.fields, Producer), c);
        if producer.Err? then Err(producer.error)
        else if !Has(v.fields, GeneratedAt) then Err(ValueError)
        else
          MakeSnapshot(Get(v.fields, Schema), Get(v.fields, Kind), Get(v.fields, Ref), Get(v.fields, Fingerprint),
                       producer.value, inputs.value, Get(v.fields, GeneratedAt), Get(v.fields, Supersedes), c)
  }

  lemma SnapshotFields(a: SnapshotRef, fields: map<Key, Value>)
    requires fields == SnapshotToDict(a).fields
    ensures KnownOnly(fields, {Schema, Kind, Ref, Fingerprint, Producer, Inputs, GeneratedAt, Supersedes})
    ensures Has(fields, Schema) && Has(fields, Kind) && Has(fields, Ref) && Has(fields, Fingerprint)
    ensures Has(fields, Producer) && Has(fields, Inputs) && Has(fields, GeneratedAt)
    ensures Get(fields, Schema) == Int(1) && Get(fields, Kind) == Str(a.kind) && Get(fields, Ref) == Str(a.ref)
    ensures Get(fields, Fingerprint) == Str(a.fingerprint) && Get(fields, Producer) == ProducerToDict(a.producer)
    ensures Get(fields, Inputs) == Items(true, Map(InputToDict, a.inputs))
    ensures Get(fields, GeneratedAt) == Str(a.generatedAt)
    ensures Get(fields, Supersedes) == if a.supersedes == None then Null else Str(a.supersedes.value)
  {
  }

  lemma SnapshotRemakes(a: SnapshotRef, c: Checks)
    requires ValidSnapshot(a, c)
    ensures MakeSnapshot(Int(1), Str(a.kind), Str(a.ref), Str(a.fingerprint), a.producer, a.inputs, Str(a.generatedAt),
                         if a.supersedes == None then Null else Str(a.supersedes.value), c) == Ok(a)
  {
  }

  lemma SnapshotRoundTrips(a: SnapshotRef, c: Checks)
    requires ValidSnapshot(a, c)
    ensures SnapshotFromDict(SnapshotToDict(a), c) == Ok(a)
  {
    SnapshotFields(a, SnapshotToDict(a).fields);
    InputsRoundTrip(a.inputs);
    ProducerRoundTrips(a.producer, c);
    SnapshotRemakes(a, c);
  }

  lemma ParsedInputsSerializeBack(v: Value, inputs: seq<InputRef>)
    requires ParseInputs(v) == Ok(inputs)
    ensures RepresentsAll(v, Items(true, Map(InputToDict, inputs)))
    ensures forall i :: 0 <= i < |inputs| ==> ValidInput(inputs[i])
  {
    ParseAllGives(InputFromDict, v.items, inputs);
    forall i | 0 <= i < |inputs| ensures ValidInput(inputs[i]) && Represents(v.items[i], InputToDict(inputs[i])) {
      ParsedInputSerializesBack(v.items[i], inputs[i]);
    }
  }

  lemma ParsedSnapshotFields(v: Value, a: SnapshotRef, c: Checks)
    requires SnapshotFromDict(v, c) == Ok(a)
    ensures v.Fields?
    ensures KnownOnly(v.fields, {Schema, Kind, Ref, Fingerprint, Producer, Inputs, GeneratedAt, Supersedes})
    ensures Has(v.fields, Schema) && Get(v.fields, Schema) == Int(1)
    ensures Has(v.fields, Kind) && Get(v.fields, Kind) == Str(a.kind) && NonBlank(a.kind)
    ensures Has(v.fields, Ref) && Get(v.fields, Ref) == Str(a.ref) && NonBlank(a.ref)
    ensures Has(v.fields, Fingerprint) && Get(v.fields, Fingerprint) == Str(a.fingerprint) && NonBlank(a.fingerprint)
    ensures Has(v.fields, Producer) && ProducerFromDict(Get(v.fields, Producer), c) == Ok(a.producer)
    ensures Has(v.fields, Inputs) && ParseInputs(Get(v.fields, Inputs)) == Ok(a.inputs)
    ensures a.inputs != [] && Distinct(InputRefs(a.inputs))
    ensures Has(v.fields, GeneratedAt) && Get(v.fields, GeneratedAt) == Str(a.generatedAt)
    ensures NonBlank(a.generatedAt) && c.utc(a.generatedAt)
    ensures Get(v.fields, Supersedes) == if a.supersedes == None then Null else Str(a.supersedes.value)
    ensures a.supersedes != None ==> NonBlank(a.supersedes.value) && a.supersedes.value != a.ref
  {
  }

  lemma ParsedSnapshotHasNoMore(v: Value, a: SnapshotRef, c: Checks, k: Key)
    requires SnapshotFromDict(v, c) == Ok(a) && k in v.fields && k !in SnapshotToDict(a).fields
    ensures v.fields[k] == Null
  {
    ParsedSnapshotFields(v, a, c);
    SnapshotFields(a, SnapshotToDict(a).fields);
    assert k == Named(Supersedes);
  }

  lemma ParsedSnapshotNests(v: Value, a: SnapshotRef, c: Checks)
    requires SnapshotFromDict(v, c) == Ok(a)
    ensures Has(v.fields, Producer) && Represents(Get(v.fields, Producer), ProducerToDict(a.producer))
    ensures Has(v.fields, Inputs) && RepresentsAll(Get(v.fields, Inputs), Items(true, Map(InputToDict, a.inputs)))
  {
    ParsedSnapshotFields(v, a, c);
    ParsedProducerSerializesBack(Get(v.fields, Producer), a.producer, c);
    ParsedInputsSerializeBack(Get(v.fields, Inputs), a.inputs);
  }

  lemma SnapshotKeys(a: SnapshotRef, k: Key)
    requires k in SnapshotToDict(a).fields
    ensures k.Named? && k.field in {Schema, Kind, Ref, Fingerprint, Producer, Inputs, GeneratedAt, Supersedes}
    ensures k == Named(Supersedes) ==> a.supersedes != None
  {
  }

  lemma ParsedSnapshotScalars(v: Value, a: SnapshotRef, c: Checks, fields: map<Key, Value>, k: Key)
    requires SnapshotFromDict(v, c) == Ok(a) && fields == SnapshotToDict(a).fields && k in fields
    requires k != Named(Producer) && k != Named(Inputs)
    ensures k in v.fields && Thaw(v.fields[k]) == fields[k]
  {
    ParsedSnapshotFields(v, a, c);
    SnapshotFields(a, fields);
    SnapshotKeys(a, k);
  }

  lemma ParsedSnapshotHasAll(v: Value, a: SnapshotRef, c: Checks, fields: map<Key, Value>, k: Key)
    requires SnapshotFromDict(v, c) == Ok(a) && fields == SnapshotToDict(a).fields && k in fields
    ensures k in v.fields && FieldSays(v.fields[k], fields[k])
  {
    if k == Named(Producer) || k == Named(Inputs) {
      ParsedSnapshotNests(v, a, c);
      SnapshotFields(a, fields);
    } else {
      ParsedSnapshotScalars(v, a, c, fields, k);
    }
  }

  /** Whatever parses is valid and serializes to what was parsed, nested references included. */
  lemma ParsedSnapshotSerializesBack(v: Value, a: SnapshotRef, c: Checks)
    requires SnapshotFromDict(v, c) == Ok(a)
    ensures ValidSnapshot(a, c) && Spells(v, SnapshotToDict(a))
  {
    var fields := SnapshotToDict(a).fields;
    ParsedSnapshotIsValid(v, a, c);
    forall k | k in v.fields && k !in fields ensures v.fields[k] == Null { ParsedSnapshotHasNoMore(v, a, c, k); }
    forall k | k in fields ensures k in v.fields && FieldSays(v.fields[k], fields[k]) {
      ParsedSnapshotHasAll(v, a, c, fields, k);
    }
  }

  lemma ParsedSnapshotIsValid(v: Value, a: SnapshotRef, c: Checks)
    requires SnapshotFromDict(v, c) == Ok(a)
    ensures ValidSnapshot(a, c)
  {
    ParsedSnapshotFields(v, a, c);
    ParsedInputsSerializeBack(Get(v.fields, Inputs), a.inputs);
    ParsedProducerSerializesBack(Get(v.fields, Producer), a.producer, c);
  }
}
