/** JSON-like Python values, and freezing and thawing whole trees of them. */
module Values {
  import opened Wrappers

  /** The names the serialized forms use for their fields. */
  datatype FieldName =
    | Schema | Kind | Ref | Location | ContentHash | ScopeRefs | MediaType | ProducerName | Version | Engine
    | Fingerprint | Producer | Inputs | GeneratedAt | Supersedes | Id | ObservedAt | OutcomeField | Facts
    | Diagnostics | Artifacts | Code | Summary

  datatype Key = Named(field: FieldName) | Text(s: string) | NotText(id: int)

  /** A list is `Items(true, ..)`, a tuple `Items(false, ..)`; a dict is `Fields(true, ..)`, a
      `MappingProxyType` `Fields(false, ..)`. `Unsupported` is any other type. */
  datatype Value =
    | Null | Bool(b: bool) | Int(n: int) | Float(x: real) | NotFinite | Str(s: string)
    | Items(mutable: bool, items: seq<Value>)
    | Fields(mutable: bool, fields: map<Key, Value>)
    | Unsupported(id: int)

  predicate Freezable(v: Value) {
    match v
    case Items(_, items) => forall i :: 0 <= i < |items| ==> Freezable(items[i])
    case Fields(_, fields) => forall k :: k in fields ==> !k.NotText? && Freezable(fields[k])
    case Unsupported(_) => false
    case _ => true
  }

  function Frozen(v: Value): Value
    requires Freezable(v)
  {
    match v
    case Items(_, items) => Items(false, seq(|items|, i requires 0 <= i < |items| => Frozen(items[i])))
    case Fields(_, fields) => Fields(false, map k | k in fields :: Frozen(fields[k]))
    case _ => v
  }

  function Thaw(v: Value): Value {
    match v
    case Items(_, items) => Items(true, seq(|items|, i requires 0 <= i < |items| => Thaw(items[i])))
    case Fields(_, fields) => Fields(true, map k | k in fields :: Thaw(fields[k]))
    case _ => v
  }

  /** All the containers of a tree, at every depth, are mutable, or none is. */
  predicate Uniform(v: Value, mutable: bool) {
    match v
    case Items(m, items) => m == mutable && forall i :: 0 <= i < |items| ==> Uniform(items[i], mutable)
    case Fields(m, fields) => m == mutable && forall k :: k in fields ==> Uniform(fields[k], mutable)
    case _ => true
  }

  lemma ItemsAgree(v: Value, w: Value)
    requires v.Items? && w.Items? && v.mutable == w.mutable && |v.items| == |w.items|
    requires forall i :: 0 <= i < |v.items| ==> v.items[i] == w.items[i]
    ensures v == w
  {
    assert v.items == w.items;
  }

  lemma FieldsAgree(v: Value, w: Value)
    requires v.Fields? && w.Fields? && v.mutable == w.mutable && v.fields.Keys == w.fields.Keys
    requires forall k :: k in v.fields ==> v.fields[k] == w.fields[k]
    ensures v == w
  {
    assert v.fields == w.fields;
  }

  /** Freezing leaves nothing mutable at any depth; a tree already frozen stays as it is. */
  lemma {:induction false} FrozenIsImmutable(v: Value)
    requires Freezable(v)
    ensures Uniform(Frozen(v), false) && Freezable(Frozen(v))
    ensures Uniform(v, false) ==> Frozen(v) == v
  {
    match v
    case Items(_, items) =>
      forall i | 0 <= i < |items| { FrozenIsImmutable(items[i]); }
      if Uniform(v, false) { ItemsAgree(v, Frozen(v)); }
    case Fields(_, fields) =>
      forall k | k in fields { FrozenIsImmutable(fields[k]); }
      if Uniform(v, false) { FieldsAgree(v, Frozen(v)); }
    case _ =>
  }

  lemma {:induction false} ThawedIsMutable(v: Value)
    ensures Uniform(Thaw(v), true)
    ensures Uniform(v, true) ==> Thaw(v) == v
  {
    match v
    case Items(_, items) =>
      forall i | 0 <= i < |items| { ThawedIsMutable(items[i]); }
      if Uniform(v, true) { ItemsAgree(v, Thaw(v)); }
    case Fields(_, fields) =>
      forall k | k in fields { ThawedIsMutable(fields[k]); }
      if Uniform(v, true) { FieldsAgree(v, Thaw(v)); }
    case _ =>
  }

  /** Thawing a frozen tree gives what thawing the tree itself gives: nothing is lost. */
  lemma {:induction false} ThawAfterFreeze(v: Value)
    requires Freezable(v)
    ensures Thaw(Frozen(v)) == Thaw(v)
  {
    match v
    case Items(_, items) =>
      forall i | 0 <= i < |items| { ThawAfterFreeze(items[i]); }
      ItemsAgree(Thaw(Frozen(v)), Thaw(v));
    case Fields(_, fields) =>
      forall k | k in fields { ThawAfterFreeze(fields[k]); }
      FieldsAgree(Thaw(Frozen(v)), Thaw(v));
    case _ =>
  }

  lemma {:induction false} FreezeAfterThaw(v: Value)
    requires Freezable(v)
    ensures Freezable(Thaw(v)) && Frozen(Thaw(v)) == Frozen(v)
  {
    match v
    case Items(_, items) =>
      forall i | 0 <= i < |items| { FreezeAfterThaw(items[i]); }
      ItemsAgree(Frozen(Thaw(v)), Frozen(v));
    case Fields(_, fields) =>
      forall k | k in fields { FreezeAfterThaw(fields[k]); }
      FieldsAgree(Frozen(Thaw(v)), Frozen(v));
    case _ =>
  }

  /** Thaw undoes freeze exactly on the trees of dicts and lists, as a JSON parser yields them. */
  lemma ThawUndoesFreeze(v: Value)
    requires Freezable(v)
    ensures Thaw(Frozen(v)) == v <==> Uniform(v, true)
  {
    ThawAfterFreeze(v);
    ThawedIsMutable(v);
  }

  /** And freeze undoes thaw exactly on the frozen ones. */
  lemma FreezeUndoesThaw(v: Value)
    requires Freezable(v)
    ensures Freezable(Thaw(v))
    ensures Frozen(Thaw(v)) == v <==> Uniform(v, false)
  {
    FreezeAfterThaw(v);
    FrozenIsImmutable(v);
  }

  // ----- The recursive freeze, filling its containers one by one

  method DeepFreeze(v: Value) returns (r: Option<Value>)
    ensures r == if Freezable(v) then Some(Frozen(v)) else None
    decreases v, 1
  {
    match v
    case Unsupported(_) => r := None;
    case Items(_, items) => r := FreezeItems(v);
    case Fields(_, fields) => r := FreezeFields(v);
    case _ => r := Some(v);
  }

  method FreezeItems(v: Value) returns (r: Option<Value>)
    requires v.Items?
    ensures r == if Freezable(v) then Some(Frozen(v)) else None
    decreases v, 0
  {
    var out: seq<Value> := [];
    for i := 0 to |v.items|
      invariant |out| == i
      invariant forall j :: 0 <= j < i ==> Freezable(v.items[j]) && out[j] == Frozen(v.items[j])
    {
      var item := DeepFreeze(v.items[i]);
      if item == None {
        return None;
      }
      out := out + [item.value];
    }
    ItemsAgree(Items(false, out), Frozen(v));
    r := Some(Items(false, out));
  }

  method FreezeFields(v: Value) returns (r: Option<Value>)
    requires v.Fields?
    ensures r == if Freezable(v) then Some(Frozen(v)) else None
    decreases v, 0
  {
    var frozen: map<Key, Value> := map[];
    var todo := v.fields.Keys;
    while todo != {}
      invariant todo <= v.fields.Keys && frozen.Keys == v.fields.Keys - todo
      invariant forall k :: k in frozen ==> !k.NotText? && Freezable(v.fields[k]) && frozen[k] == Frozen(v.fields[k])
      decreases |todo|
    {
      var k :| k in todo;
      if k.NotText? {
        return None;
      }
      var item := DeepFreeze(v.fields[k]);
      if item == None {
        return None;
      }
      frozen := frozen[k := item.value];
      todo := todo - {k};
    }
    FieldsAgree(Fields(false, frozen), Frozen(v));
    r := Some(Fields(false, frozen));
  }
}
