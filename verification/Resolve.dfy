/** Resolution of a document into typed values (resolve and defaults of
    internal/core/config/loader.go, ResolveBytes of render.go): the document
    layered over the registered defaults, every key coerced to its type. */
module Resolve {
  import opened Wrappers
  import opened Text
  import opened ConfigKey
  import opened Toml

  datatype Layered = Set(raw: Option<Value>) | ATable

  /** What the layered sources hold at a key. A table in the document shadows a
      default of the same name, and a value shadows the defaults below it. */
  function Layer(doc: Doc, key: Key): Layered {
    if key.name in doc.values then Set(Some(doc.values[key.name]))
    else if || key.name in doc.tables
            || (exists t :: t in doc.tables && Under(key.name, t))
            || (exists p :: p in doc.values.Keys && Under(key.name, p)) then ATable
    else if exists p :: p in doc.values.Keys && Under(p, key.name) then Set(None)
    else Set(key.default)
  }

  function Typed(doc: Doc, key: Key, dc: Dialect): Option<Value> {
    match Layer(doc, key)
    case Set(raw) => Coerce(key.typ, raw, dc)
    case ATable => None
  }

  function TypedAll(spec: Spec, doc: Doc, dc: Dialect): (typed: seq<Option<Value>>)
    ensures |typed| == |spec| && forall i :: 0 <= i < |spec| ==> typed[i] == Typed(doc, spec[i], dc)
  {
    seq(|spec|, i requires 0 <= i < |spec| => Typed(doc, spec[i], dc))
  }

  /** What is resolved so far and what is left, each key with its coerced value. */
  function Collect(spec: Spec, typed: seq<Option<Value>>, i: nat, values: map<string, Value>, errs: seq<string>)
    : Result<map<string, Value>, ConfigError>
    requires i <= |spec| == |typed|
    decreases |spec| - i
  {
    if i == |spec| then if errs == [] then Success(values) else Failure(Unresolvable(errs))
    else
      match typed[i]
      case Some(v) => Collect(spec, typed, i + 1, values[spec[i].name := v], errs)
      case None => Collect(spec, typed, i + 1, values, errs + [spec[i].name])
  }

  function Resolved(spec: Spec, doc: Doc, dc: Dialect): Result<map<string, Value>, ConfigError> {
    Collect(spec, TypedAll(spec, doc, dc), 0, map[], [])
  }

  /** resolve: coerce every key, collecting every failure. */
  method ResolveKeys(spec: Spec, doc: Doc, dc: Dialect) returns (r: Result<map<string, Value>, ConfigError>)
    ensures r == Resolved(spec, doc, dc)
  {
    ghost var all := TypedAll(spec, doc, dc);
    var values: map<string, Value>, errs: seq<string> := map[], [];
    for i := 0 to |spec|
      invariant Resolved(spec, doc, dc) == Collect(spec, all, i, values, errs)
    {
      var typed := Typed(doc, spec[i], dc);
      if typed.None? {
        errs := errs + [spec[i].name];
      } else {
        values := values[spec[i].name := typed.value];
      }
    }
    r := if errs == [] then Success(values) else Failure(Unresolvable(errs));
  }

  /** ResolveBytes, and equally the service's own load of the same file: the
      environment is excluded from both. */
  function ResolvedBytes(spec: Spec, document: string, dc: Dialect): Result<map<string, Value>, ConfigError> {
    var index :- Indexed(spec, dc.fold);
    match Unmarshal(document)
    case None => Failure(DoesNotParse)
    case Some(doc) => Resolved(spec, doc, dc)
  }

  method ResolveBytes(spec: Spec, document: string, dc: Dialect) returns (r: Result<map<string, Value>, ConfigError>)
    ensures r == ResolvedBytes(spec, document, dc)
  {
    var _ :- Index(spec, dc.fold);
    var doc := Unmarshal(document);
    if doc.None? {
      return Failure(DoesNotParse);
    }
    r := ResolveKeys(spec, doc.value, dc);
  }

  ghost predicate DistinctNames(spec: Spec) {
    forall i, j :: 0 <= i < j < |spec| ==> spec[i].name != spec[j].name
  }

  ghost predicate Holds(spec: Spec, typed: seq<Option<Value>>, n: nat, values: map<string, Value>)
    requires n <= |spec| == |typed|
  {
    && values.Keys == NamesTo(spec, n)
    && forall j :: 0 <= j < n ==> typed[j] == Some(values[spec[j].name])
  }

  lemma HoldsStep(spec: Spec, typed: seq<Option<Value>>, i: nat, values: map<string, Value>)
    requires i < |spec| == |typed| && DistinctNames(spec) && Holds(spec, typed, i, values) && typed[i].Some?
    ensures Holds(spec, typed, i + 1, values[spec[i].name := typed[i].value])
  {
    assert NamesTo(spec, i + 1) == NamesTo(spec, i) + {spec[i].name};
    forall j | 0 <= j < i + 1
      ensures typed[j] == Some(values[spec[i].name := typed[i].value][spec[j].name])
    {
      if j < i {
        assert spec[j].name in NamesTo(spec, i) && spec[j].name != spec[i].name;
      }
    }
  }

  lemma {:induction false} CollectMeaning(spec: Spec, typed: seq<Option<Value>>, i: nat, values: map<string, Value>, errs: seq<string>)
    requires i <= |spec| == |typed| && DistinctNames(spec)
    requires errs == [] ==> Holds(spec, typed, i, values)
    ensures var r := Collect(spec, typed, i, values, errs);
            && (r.Success? <==> errs == [] && forall j :: i <= j < |spec| ==> typed[j].Some?)
            && (r.Success? ==> Holds(spec, typed, |spec|, r.value))
    decreases |spec| - i
  {
    if i < |spec| {
      if typed[i].Some? {
        if errs == [] {
          HoldsStep(spec, typed, i, values);
        }
        CollectMeaning(spec, typed, i + 1, values[spec[i].name := typed[i].value], errs);
      } else {
        CollectMeaning(spec, typed, i + 1, values, errs + [spec[i].name]);
      }
    }
  }

  lemma TypedFits(doc: Doc, key: Key, dc: Dialect)
    ensures Typed(doc, key, dc).Some? ==> TypeFits(key.typ, Typed(doc, key, dc).value)
  {
    if Layer(doc, key).Set? {
      CoerceTypes(key.typ, Layer(doc, key).raw, dc);
    }
  }

  /** Resolution succeeds exactly when every key's layered value coerces, and
      then holds that value, of the key's own type, for every registered key and
      for nothing else. */
  lemma ResolutionMeaning(spec: Spec, doc: Doc, dc: Dialect)
    requires DistinctNames(spec)
    ensures var r := Resolved(spec, doc, dc);
            && (r.Success? <==> forall j :: 0 <= j < |spec| ==> Typed(doc, spec[j], dc).Some?)
            && (r.Success? ==> && r.value.Keys == NamesTo(spec, |spec|)
                               && forall j :: 0 <= j < |spec| ==>
                                    && Typed(doc, spec[j], dc) == Some(r.value[spec[j].name])
                                    && TypeFits(spec[j].typ, r.value[spec[j].name]))
  {
    var typed := TypedAll(spec, doc, dc);
    CollectMeaning(spec, typed, 0, map[], []);
    assert forall j :: 0 <= j < |spec| ==> typed[j] == Typed(doc, spec[j], dc);
    forall j | 0 <= j < |spec|
      ensures Typed(doc, spec[j], dc).Some? ==> TypeFits(spec[j].typ, Typed(doc, spec[j], dc).value)
    {
      TypedFits(doc, spec[j], dc);
    }
  }
}
