/** Lists, single rows and references: three ways to ask the object tier the same question. */
module Access {
  import opened Outcomes
  import opened Listing
  import opened Values
  import opened Predicates
  import opened Base
  import opened Registry
  import opened Grants
  import opened Resolver
  import opened Denotation

  function TableOf(world: World, model: string): seq<Row> {
    if model in world.tables then world.tables[model] else []
  }

  /** The rows of a queryset that pass a resolved scope. */
  function Through(scope: Scope, qs: seq<Row>): seq<Row> {
    match scope
    case Deny => []
    case All => qs
    case Filtered(q, distinct) => if distinct then Distinct(Filter(qs, q)) else Filter(qs, q)
  }

  lemma ThroughMembers(scope: Scope, qs: seq<Row>, row: Row)
    ensures row in Through(scope, qs) <==> row in qs && InScope(scope, row)
  {
    if scope.Filtered? {
      FilterMembers(qs, scope.q, row);
    }
  }

  function ApplyScope(p: Policy, qs: seq<Row>, user: User, key: string): Result<seq<Row>> {
    var scope :- ScopeOf(p, user, key);
    Ok(Through(scope, qs))
  }

  predicate HasPk(rows: seq<Row>, pk: int) {
    exists r | r in rows :: r.pk == pk
  }

  /** The object check, once the scope is known. */
  function Accepts(scope: Result<Scope>, world: World, model: string, pk: int): Result<bool> {
    var s :- scope;
    match s
    case Deny => Ok(false)
    case All => Ok(true)
    case Filtered(q, _) => Ok(HasPk(Filter(TableOf(world, model), q), pk))
  }

  /** `obj` is an instance of `model` with this primary key; nothing else of it is looked at. */
  function CheckObject(p: Policy, world: World, user: User, key: string, model: string, pk: int): Result<bool> {
    Accepts(ScopeOf(p, user, key), world, model, pk)
  }

  /** What a payload may put in a governed reference: nothing, a record, or data that the database may or may not
      read as a primary key.  `Unreadable` is what no query can compare with one, as is a record of another
      model. */
  datatype Item = Nothing | Instance(model: string, pk: int) | Data(value: Value) | Unreadable

  /** The check of one submitted item, once the scope under the governing key is known. */
  function Permits(scope: Result<Scope>, world: World, model: string, item: Item): Result<bool>
    decreases item.Instance?
  {
    match item
    case Nothing => Ok(true)
    case Instance(m, pk) =>
      if m == model then Accepts(scope, world, model, pk) else Permits(scope, world, model, Unreadable)
    case Unreadable =>
      var s :- scope;
      if s.Deny? then Ok(false) else Err(Other)
    case Data(v) =>
      var s :- scope;
      if s.Deny? then Ok(false)
      else
        match world.keyOf(model, v)
        case None => Err(Other)
        case Some(pk) => Ok(HasPk(if s.All? then TableOf(world, model) else Filter(TableOf(world, model), s.q), pk))
  }

  function ReferencePermitted(p: Policy, world: World, user: User, governing: string, model: string, item: Item)
    : Result<bool> {
    Permits(ScopeOf(p, user, governing), world, model, item)
  }

  /** The referenced rows must each be one the user could reach under the governing key. */
  method AssertReferenceInScope(p: Policy, world: World, user: User, governing: string, items: seq<Item>)
    returns (r: Result<()>)
    ensures r.Ok? <==> ReferencesInScope(p, world, user, governing, items)
    ensures Lookup(p.reg, governing).Err? ==> r == Err(UnknownKey(governing))
    ensures Lookup(p.reg, governing).Ok? && Lookup(p.reg, governing).value.model == None ==>
      r == Err(NoModel(governing))
  {
    var looked := Lookup(p.reg, governing);
    if looked.Err? {
      return Err(looked.error);
    }
    if looked.value.model == None {
      return Err(NoModel(governing));
    }
    var model := looked.value.model.value;
    for i := 0 to |items|
      invariant forall j | 0 <= j < i :: ReferencePermitted(p, world, user, governing, model, items[j]) == Ok(true)
    {
      var permitted := ReferencePermitted(p, world, user, governing, model, items[i]);
      if permitted.Err? {
        return Err(permitted.error);
      }
      if !permitted.value {
        return Err(Denied(governing));
      }
    }
    return Ok(());
  }

  ghost predicate ReferencesInScope(p: Policy, world: World, user: User, governing: string, items: seq<Item>) {
    && Lookup(p.reg, governing).Ok?
    && Lookup(p.reg, governing).value.model.Some?
    && forall i | 0 <= i < |items| ::
      ReferencePermitted(p, world, user, governing, Lookup(p.reg, governing).value.model.value, items[i]) == Ok(true)
  }

  // ----- the three agree

  /** A filter that crosses a to-many relation says so. */
  ghost predicate TruthfulFlags(reg: Reg, ctx: Context) {
    forall id, params | id in reg.conditions && !reg.conditions[id].multiValued ::
      !HasJoin(reg.conditions[id].asQ(ctx, params))
  }

  lemma {:induction false} GrantJoins(reg: Reg, spec: KeySpec, ctx: Context, cs: seq<(string, Params)>)
    requires TruthfulFlags(reg, ctx)
    requires CompileGrant(reg, spec, ctx, cs).Ok?
    ensures HasJoin(CompileGrant(reg, spec, ctx, cs).value.q) ==> CompileGrant(reg, spec, ctx, cs).value.distinct
  {
    if cs != [] {
      GrantJoins(reg, spec, ctx, cs[..|cs| - 1]);
    }
  }

  /** With truthful flags a scope that joins asks for `distinct`. */
  lemma {:induction false} ScopeJoins(reg: Reg, spec: KeySpec, ctx: Context, gs: seq<ObjectGrant>)
    requires TruthfulFlags(reg, ctx)
    requires CompileGrants(reg, spec, ctx, gs).Ok? && CompileGrants(reg, spec, ctx, gs).value.Filtered?
    ensures var s := CompileGrants(reg, spec, ctx, gs).value; HasJoin(s.q) ==> s.distinct
  {
    if gs != [] {
      ScopeJoins(reg, spec, ctx, gs[..|gs| - 1]);
      GrantJoins(reg, spec, ctx, gs[|gs| - 1].conditions);
    }
  }

  lemma FilterByPk(table: seq<Row>, q: Q, row: Row)
    requires DistinctPks(table) && row in table
    ensures HasPk(Filter(table, q), row.pk) <==> Matches(q, row)
  {
    FilterMembers(table, q, row);
    hide Filter, Matches;
    if HasPk(Filter(table, q), row.pk) {
      var r :| r in Filter(table, q) && r.pk == row.pk;
      FilterMembers(table, q, r);
      var i, j :| 0 <= i < |table| && 0 <= j < |table| && table[i] == r && table[j] == row;
    }
  }

  /** A row of the caller's queryset is listed exactly when it is in scope; nothing else is listed. */
  lemma ListMembers(p: Policy, qs: seq<Row>, user: User, key: string, row: Row)
    requires ScopeOf(p, user, key).Ok?
    ensures ApplyScope(p, qs, user, key).Ok?
    ensures row in ApplyScope(p, qs, user, key).value <==> row in qs && InScope(ScopeOf(p, user, key).value, row)
  {
    ThroughMembers(ScopeOf(p, user, key).value, qs, row);
  }

  /** List, detail and reference check give one answer for every stored row: listed in the whole table,
      accepted by the object check, accepted as an instance and as any data that is read as its primary key.
      They also fail together, with the same error. */
  lemma ListDetailReferenceAgree(p: Policy, world: World, user: User, key: string, model: string, row: Row, v: Value)
    requires DistinctPks(TableOf(world, model)) && row in TableOf(world, model)
    ensures var list := ApplyScope(p, TableOf(world, model), user, key);
      var detail := CheckObject(p, world, user, key, model, row.pk);
      && (list.Err? <==> detail.Err?)
      && (list.Err? ==> list.error == detail.error)
      && (list.Ok? ==> (row in list.value <==> detail.value))
      && detail == ReferencePermitted(p, world, user, key, model, Instance(model, row.pk))
      && (world.keyOf(model, v) == Some(row.pk) ==> detail == ReferencePermitted(p, world, user, key, model, Data(v)))
  {
    var s := ScopeOf(p, user, key);
    if s.Ok? {
      ListMembers(p, TableOf(world, model), user, key, row);
      if s.value.Filtered? {
        FilterByPk(TableOf(world, model), s.value.q, row);
      }
    }
  }

  /** Data read as a primary key no row has is never a permitted reference, although a check on an unsaved
      instance of an unrestricted scope succeeds. */
  lemma DanglingReference(p: Policy, world: World, user: User, key: string, model: string, pk: int, v: Value)
    requires ScopeOf(p, user, key).Ok?
    requires !HasPk(TableOf(world, model), pk) && world.keyOf(model, v) == Some(pk)
    ensures ReferencePermitted(p, world, user, key, model, Data(v)) == Ok(false)
    ensures CheckObject(p, world, user, key, model, pk) == Ok(ScopeOf(p, user, key).value.All?)
  {
    var s := ScopeOf(p, user, key).value;
    if s.Filtered? && HasPk(Filter(TableOf(world, model), s.q), pk) {
      var r :| r in Filter(TableOf(world, model), s.q) && r.pk == pk;
      FilterMembers(TableOf(world, model), s.q, r);
    }
  }

  lemma DistinctKeepsPks(table: seq<Row>, rows: seq<Row>)
    requires DistinctPks(table)
    requires forall r | r in rows :: r in table
    ensures DistinctPks(Distinct(rows))
  {
    var d := Distinct(rows);
    forall i, j | 0 <= i < j < |d|
      ensures d[i].pk != d[j].pk
    {
      assert d[i] in d && d[j] in d;
      assert d[i] in table && d[j] in table;
    }
  }

  /** With truthful flags no row is listed twice. */
  lemma ListedOnce(p: Policy, qs: seq<Row>, user: User, key: string)
    requires DistinctPks(qs)
    requires TruthfulFlags(p.reg, p.contextOf(user))
    requires ScopeOf(p, user, key).Ok?
    ensures DistinctPks(ApplyScope(p, qs, user, key).value)
  {
    var s := ScopeOf(p, user, key).value;
    if s.Filtered? {
      ScopeJoins(p.reg, Lookup(p.reg, key).value, p.contextOf(user), GrantsFor(p, user, key));
      if s.distinct {
        forall r | r in Filter(qs, s.q)
          ensures r in qs
        {
          FilterMembers(qs, s.q, r);
        }
        DistinctKeepsPks(qs, Filter(qs, s.q));
      } else {
        NoJoinNoRepeats(qs, s.q);
      }
    }
  }

  /** Data no database can compare with the primary key of this model: data it refuses, a record of another model,
      or what is neither. */
  predicate Incomparable(world: World, model: string, item: Item) {
    || item.Unreadable?
    || (item.Instance? && item.model != model)
    || (item.Data? && world.keyOf(model, item.value) == None)
  }

  /** Such data is an error, not a refusal, unless the scope denies everything: then nothing is compared at all. */
  lemma UnreadableReference(p: Policy, world: World, user: User, key: string, model: string, item: Item)
    requires Incomparable(world, model, item)
    ensures ReferencePermitted(p, world, user, key, model, item) != Ok(true)
    ensures ReferencePermitted(p, world, user, key, model, item) == Ok(false) <==> ScopeOf(p, user, key) == Ok(Deny)
  {
    hide ScopeOf;
    if item.Instance? {
      assert Permits(ScopeOf(p, user, key), world, model, item) ==
             Permits(ScopeOf(p, user, key), world, model, Unreadable);
    }
  }

  /** Being allowed a row implies being allowed the endpoint. */
  lemma ScopeImpliesEndpoint(p: Policy, world: World, user: User, key: string, model: string, pk: int)
    requires CheckObject(p, world, user, key, model, pk) == Ok(true)
    ensures CheckEndpoint(p, user, key) == Ok(true)
  {
  }
}
