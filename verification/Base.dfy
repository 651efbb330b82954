/** Declared filters and the binding of configured params to their schema. */
module Base {
  import opened Outcomes
  import opened Values
  import opened Predicates

  /** Whoever is asking, as filters see them at request time. */
  datatype User = User(superuser: bool, attributes: map<string, Value>)

  datatype Context = Context(user: User, extra: Params)

  datatype Param = Param(pyType: PyType, default: Option<Value>)

  /** A declared filter: its body is an arbitrary function of the context and the bound params. */
  datatype ConditionSpec = ConditionSpec(
    id: string,
    asQ: (Context, Params) -> Q,
    params: map<string, Param>,
    multiValued: bool,
    objectKey: Option<string>,
    title: string)

  /** One declared param: a missing value takes the default, a present one must have the declared type. */
  function Validate(id: string, p: Param, raw: Option<Value>): Result<Value> {
    match raw
    case None => if p.default.Some? then Ok(p.default.value) else Err(InvalidParams(id))
    case Some(v) => if IsInstance(v, p.pyType) then Ok(v) else Err(InvalidParams(id))
  }

  function Raw(raw: Params, name: string): Option<Value> {
    if name in raw then Some(raw[name]) else None
  }

  predicate Bindable(spec: ConditionSpec, raw: Params) {
    && raw.Keys <= spec.params.Keys
    && forall n | n in spec.params :: Validate(spec.id, spec.params[n], Raw(raw, n)).Ok?
  }

  /** Every way to fail is an InvalidParams error. */
  function Bind(spec: ConditionSpec, raw: Params): (r: Result<Params>)
    ensures r.Ok? <==> Bindable(spec, raw)
    ensures r.Err? ==> r.error == InvalidParams(spec.id)
    ensures r.Ok? ==> r.value.Keys == spec.params.Keys
    ensures r.Ok? ==> forall n | n in spec.params ::
      r.value[n] == if n in raw then raw[n] else spec.params[n].default.GetOr(Null)
  {
    if Bindable(spec, raw) then
      Ok(map n | n in spec.params :: Validate(spec.id, spec.params[n], Raw(raw, n)).value)
    else Err(InvalidParams(spec.id))
  }

  /** Binding again what binding returned changes nothing, unless a default breaks its own declaration. */
  lemma BindIdempotent(spec: ConditionSpec, raw: Params)
    requires Bind(spec, raw).Ok?
    requires forall n | n in spec.params && spec.params[n].default.Some? ::
      IsInstance(spec.params[n].default.value, spec.params[n].pyType)
    ensures Bind(spec, Bind(spec, raw).value) == Bind(spec, raw)
  {
    var once := Bind(spec, raw).value;
    forall n | n in spec.params
      ensures Validate(spec.id, spec.params[n], Raw(once, n)) == Ok(once[n])
    {
      assert Validate(spec.id, spec.params[n], Raw(raw, n)).Ok?;
    }
    assert Bindable(spec, once);
    assert Bind(spec, once).value == once;
  }

  /** Binding, told from the declarations alone: no unknown param, a default for every missing one, and every given
      one of its declared type, a boolean passing for an integer and nothing else for anything else. */
  lemma BindExactly(spec: ConditionSpec, raw: Params)
    ensures Bind(spec, raw).Ok? <==>
      && (forall n | n in raw :: n in spec.params)
      && (forall n | n in spec.params && n !in raw :: spec.params[n].default.Some?)
      && (forall n | n in spec.params && n in raw ::
            match spec.params[n].pyType
            case BoolType => raw[n].Bool?
            case IntType => raw[n].Int? || raw[n].Bool?
            case StrType => raw[n].Str?
            case ListType => raw[n].List?
            case DictType => raw[n].Dict?)
  {
    if Bind(spec, raw).Ok? {
      assert forall n | n in spec.params :: Validate(spec.id, spec.params[n], Raw(raw, n)).Ok?;
    }
  }
}
