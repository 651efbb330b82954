/** The checks a sync ends with, and what passing them buys. */
module Validation {
  import opened Outcomes
  import opened Listing
  import opened Keys
  import opened Values
  import opened Base
  import opened Registry
  import opened Upserting
  import opened Tables
  import opened Sync
  import opened Grants
  import opened Resolver
  import opened Denotation
  import opened DatabaseStore

  datatype Problem =
    | UnboundObject(key: string)
    | UnattachedFilter(id: string)
    | FiltersNeverFire(key: string)
    | UnknownField(owner: string, group: string)
    | StaleEndpoint(permission: string, endpoint: nat)
    | StaleObject(rule: nat)
    | StaleRuleKey(rule: nat)
    | StaleFilter(rule: nat, filter: nat)
    | MisfiledFilter(rule: nat, filter: nat)
    | StaleGroup(grant: (string, nat, string))
    | StaleGrantKey(grant: (string, nat, string))
  {
    predicate Warning() {
      UnboundObject? || UnattachedFilter?
    }
  }

  // ----- declarations

  predicate Unbound(reg: Reg, key: string) {
    key !in reg.objects || reg.objects[key].model.None?
  }

  predicate HasFilters(reg: Reg, key: string) {
    exists id | id in reg.conditions :: reg.conditions[id].objectKey == Some(key)
  }

  predicate HasScopePoint(reg: Reg, key: string) {
    exists p | p in reg.points :: p.0 == key
  }

  /** `has(model, name)`: the model has this column or attribute. */
  predicate MissingField(reg: Reg, has: (string, string) -> bool, g: (string, string))
    requires g in reg.groups
  {
    !Unbound(reg, g.0) && exists f | f in reg.groups[g].fields :: !has(reg.objects[g.0].model.value, f)
  }

  function DeclarationProblems(reg: Reg, has: (string, string) -> bool): set<Problem> {
    (set key | key in ObjectKeys(reg) && Unbound(reg, key) :: UnboundObject(key))
    + (set id | id in reg.conditions && reg.conditions[id].objectKey.None? :: UnattachedFilter(id))
    + (set key | key in ObjectKeys(reg) && HasFilters(reg, key) && !HasScopePoint(reg, key) :: FiltersNeverFire(key))
    + (set g | g in reg.groups && MissingField(reg, has, g) :: UnknownField(g.0, g.1))
  }

  // ----- compositions, row by row

  function EndpointProblems(cat: Catalogue, e: (string, nat)): set<Problem>
    requires e.1 in cat.endpoints
  {
    if cat.endpoints[e.1].live then {} else {StaleEndpoint(e.0, e.1)}
  }

  function RuleProblems(reg: Reg, cat: Catalogue, comp: Composition, r: nat): set<Problem>
    requires r in comp.rules && comp.rules[r].owner in cat.objects
  {
    var o := cat.objects[comp.rules[r].owner];
    if !o.live then {StaleObject(r)}
    else if JoinKey(o.cols.key, comp.rules[r].verb) !in KnownKeys(reg) then {StaleRuleKey(r)}
    else {}
  }

  function ConditionProblems(cat: Catalogue, comp: Composition, c: (nat, nat)): set<Problem>
    requires c.0 in comp.rules && c.1 in cat.filters
  {
    (if cat.filters[c.1].live then {} else {StaleFilter(c.0, c.1)})
    + (if cat.filters[c.1].cols.owner == comp.rules[c.0].owner then {} else {MisfiledFilter(c.0, c.1)})
  }

  function GrantProblems(reg: Reg, cat: Catalogue, g: (string, nat, string)): set<Problem>
    requires g.1 in cat.groups && cat.groups[g.1].cols.owner in cat.objects
  {
    if !cat.groups[g.1].live then {StaleGroup(g)}
    else if JoinKey(cat.objects[cat.groups[g.1].cols.owner].cols.key, g.2) !in KnownKeys(reg) then {StaleGrantKey(g)}
    else {}
  }

  /** Everything wrong with what is composed, and nothing else. */
  ghost predicate Found(reg: Reg, cat: Catalogue, comp: Composition, problems: set<Problem>)
    requires CatalogueValid(cat) && Linked(comp) && Refers(comp, cat)
  {
    forall p :: p in problems <==>
      || (exists e :: e in comp.endpoints && p in EndpointProblems(cat, e))
      || (exists r :: r in comp.rules && p in RuleProblems(reg, cat, comp, r))
      || (exists c :: c in comp.conditions && p in ConditionProblems(cat, comp, c))
      || (exists g :: g in comp.grants && p in GrantProblems(reg, cat, g))
  }

  method ValidateEndpoints(cat: Catalogue, comp: Composition) returns (problems: set<Problem>)
    requires Refers(comp, cat)
    ensures forall p :: p in problems <==> exists e :: e in comp.endpoints && p in EndpointProblems(cat, e)
  {
    problems := {};
    var todo := comp.endpoints;
    while todo != {}
      invariant todo <= comp.endpoints
      invariant forall p :: p in problems <==> exists e :: e in comp.endpoints - todo && p in EndpointProblems(cat, e)
      decreases |todo|
    {
      var e :| e in todo;
      problems := problems + EndpointProblems(cat, e);
      assert comp.endpoints - (todo - {e}) == comp.endpoints - todo + {e};
      todo := todo - {e};
    }
    assert comp.endpoints - todo == comp.endpoints;
  }

  method ValidateRules(reg: Reg, cat: Catalogue, comp: Composition) returns (problems: set<Problem>)
    requires Refers(comp, cat)
    ensures forall p :: p in problems <==> exists r :: r in comp.rules && p in RuleProblems(reg, cat, comp, r)
  {
    problems := {};
    var todo := comp.rules.Keys;
    while todo != {}
      invariant todo <= comp.rules.Keys
      invariant forall p :: p in problems <==>
        exists r :: r in comp.rules && r !in todo && p in RuleProblems(reg, cat, comp, r)
      decreases |todo|
    {
      var r :| r in todo;
      problems := problems + RuleProblems(reg, cat, comp, r);
      todo := todo - {r};
    }
  }

  method ValidateConditions(cat: Catalogue, comp: Composition) returns (problems: set<Problem>)
    requires Linked(comp) && Refers(comp, cat)
    ensures forall p :: p in problems <==> exists c :: c in comp.conditions && p in ConditionProblems(cat, comp, c)
  {
    problems := {};
    var todo := comp.conditions.Keys;
    while todo != {}
      invariant todo <= comp.conditions.Keys
      invariant forall p :: p in problems <==>
        exists c :: c in comp.conditions && c !in todo && p in ConditionProblems(cat, comp, c)
      decreases |todo|
    {
      var c :| c in todo;
      problems := problems + ConditionProblems(cat, comp, c);
      todo := todo - {c};
    }
  }

  method ValidateGrants(reg: Reg, cat: Catalogue, comp: Composition) returns (problems: set<Problem>)
    requires CatalogueValid(cat) && Refers(comp, cat)
    ensures forall p :: p in problems <==> exists g :: g in comp.grants && p in GrantProblems(reg, cat, g)
  {
    problems := {};
    var todo := comp.grants.Keys;
    while todo != {}
      invariant todo <= comp.grants.Keys
      invariant forall p :: p in problems <==>
        exists g :: g in comp.grants && g !in todo && p in GrantProblems(reg, cat, g)
      decreases |todo|
    {
      var g :| g in todo;
      problems := problems + GrantProblems(reg, cat, g);
      todo := todo - {g};
    }
  }

  method ValidateCompositions(reg: Reg, cat: Catalogue, comp: Composition) returns (problems: set<Problem>)
    requires CatalogueValid(cat) && Linked(comp) && Refers(comp, cat)
    ensures Found(reg, cat, comp, problems)
  {
    hide EndpointProblems, RuleProblems, ConditionProblems, GrantProblems, CatalogueValid, Linked;
    var a := ValidateEndpoints(cat, comp);
    var b := ValidateRules(reg, cat, comp);
    var c := ValidateConditions(cat, comp);
    var d := ValidateGrants(reg, cat, comp);
    problems := a + b + c + d;
  }

  /** The whole run: publish, then report every disagreement.  Nothing composed is touched. */
  method SyncCatalogue(db: Database, reg: Reg, has: (string, string) -> bool, now: int)
    returns (report: TablesReport, problems: set<Problem>)
    requires db.Valid()
    modifies db`cat, db`nextPk
    ensures db.Valid()
    ensures Synced(old(db.cat), db.cat, reg, now)
    ensures Reported(old(db.cat), reg, Places(reg, db.cat.objects), report)
    ensures exists found :: Found(reg, db.cat, db.comp, found) && problems == DeclarationProblems(reg, has) + found
  {
    report := SyncTables(db, reg, now);
    var found := ValidateCompositions(reg, db.cat, db.comp);
    problems := DeclarationProblems(reg, has) + found;
  }

  // ----- a clean run makes the resolver total

  predicate NoErrors(problems: set<Problem>) {
    forall p: Problem | p in problems :: p.Warning()
  }

  ghost predicate Clean(reg: Reg, cat: Catalogue, comp: Composition)
    requires CatalogueValid(cat) && Linked(comp) && Refers(comp, cat)
  {
    exists found :: Found(reg, cat, comp, found) && NoErrors(found)
  }

  /** The live filter rows are declared filters, filed under the object they were declared for. */
  ghost predicate FiltersDeclared(reg: Reg, cat: Catalogue) {
    forall f | f in cat.filters && cat.filters[f].live ::
      var cols := cat.filters[f].cols;
      && cols.key in reg.conditions
      && cols.owner in cat.objects
      && reg.conditions[cols.key].objectKey == Some(cat.objects[cols.owner].cols.key)
  }

  lemma SyncDeclaresFilters(before: Catalogue, after: Catalogue, reg: Reg, now: int)
    requires Synced(before, after, reg, now)
    ensures FiltersDeclared(reg, after)
  {
    var pks := Places(reg, after.objects);
    forall f | f in after.filters && after.filters[f].live
      ensures var cols := after.filters[f].cols;
        && cols.key in reg.conditions
        && cols.owner in after.objects
        && reg.conditions[cols.key].objectKey == Some(after.objects[cols.owner].cols.key)
    {
      LiveMeansDeclared(before.filters, after.filters, FilterWanted(reg, pks), FilterNatural, now, f);
      var o := reg.conditions[after.filters[f].cols.key].objectKey.value;
      assert o in pks && ObjectNatural(after.objects[pks[o]].cols) == o;
    }
  }

  /** Every condition row of a clean composition uses a live filter of the rule's own object. */
  lemma CleanConditions(reg: Reg, cat: Catalogue, comp: Composition, c: (nat, nat))
    requires CatalogueValid(cat) && Linked(comp) && Refers(comp, cat)
    requires Clean(reg, cat, comp)
    requires c in comp.conditions
    ensures cat.filters[c.1].live && cat.filters[c.1].cols.owner == comp.rules[c.0].owner
  {
    var found :| Found(reg, cat, comp, found) && NoErrors(found);
    forall p | p in ConditionProblems(cat, comp, c)
      ensures p.Warning()
    {
      assert p in found;
    }
    assert StaleFilter(c.0, c.1) !in ConditionProblems(cat, comp, c);
    assert MisfiledFilter(c.0, c.1) !in ConditionProblems(cat, comp, c);
  }

  /** Over a clean composition a listed condition can fail in one way only: its params do not bind. */
  lemma OnlyParamsFail(reg: Reg, cat: Catalogue, comp: Composition, spec: KeySpec, roles: seq<string>, key: string,
                       g: ObjectGrant, c: (string, Params))
    requires CatalogueValid(cat) && Linked(comp) && Refers(comp, cat)
    requires Clean(reg, cat, comp) && FiltersDeclared(reg, cat)
    requires spec.resource == RPartition(key).objectKey
    requires g in ObjectGrants(cat, comp, roles, key) && c in g.conditions
    ensures c.0 in reg.conditions && reg.conditions[c.0].objectKey == Some(spec.resource)
    ensures Fails(reg, spec, c) <==> Bind(reg.conditions[c.0], c.1).Err?
  {
    GrantMembers(cat, comp, roles, key, g);
    var r :| r in RulesFor(cat, comp, roles, key) && g == RuleGrant(cat, comp, key, r);
    ConditionMembers(cat, comp, r, c);
    var f :| (r, f) in comp.conditions && f in cat.filters && c == ConditionOf(cat, comp, r, f);
    CleanConditions(reg, cat, comp, (r, f));
  }

  /** Where a resolution error comes from. */
  lemma {:induction false} GrantErrorOrigin(reg: Reg, spec: KeySpec, ctx: Context, cs: seq<(string, Params)>)
    requires CompileGrant(reg, spec, ctx, cs).Err?
    ensures exists c :: c in cs && CompileCondition(reg, spec, ctx, c) == Err(CompileGrant(reg, spec, ctx, cs).error)
  {
    var init := cs[..|cs| - 1];
    if CompileGrant(reg, spec, ctx, init).Err? {
      GrantErrorOrigin(reg, spec, ctx, init);
      var c :| c in init && CompileCondition(reg, spec, ctx, c) == Err(CompileGrant(reg, spec, ctx, init).error);
      assert c in cs;
    } else {
      assert cs[|cs| - 1] in cs;
    }
  }

  lemma {:induction false} ScopeErrorOrigin(reg: Reg, spec: KeySpec, ctx: Context, gs: seq<ObjectGrant>)
    requires CompileGrants(reg, spec, ctx, gs).Err?
    ensures exists g, c ::
      g in gs && c in g.conditions &&
        CompileCondition(reg, spec, ctx, c) == Err(CompileGrants(reg, spec, ctx, gs).error)
  {
    var init, last := gs[..|gs| - 1], gs[|gs| - 1];
    if CompileGrants(reg, spec, ctx, init).Err? {
      ScopeErrorOrigin(reg, spec, ctx, init);
      var g, c :| g in init && c in g.conditions
        && CompileCondition(reg, spec, ctx, c) == Err(CompileGrants(reg, spec, ctx, init).error);
      assert g in gs;
    } else {
      GrantErrorOrigin(reg, spec, ctx, last.conditions);
      assert last in gs;
    }
  }

  /** The policy reads its grants from these tables. */
  ghost predicate ReadsFrom(p: Policy, cat: Catalogue, comp: Composition) {
    forall roles, key ::
      && p.store.endpoint(roles, key) == HasEndpointGrant(cat, comp, roles, key)
      && p.store.objects(roles, key) == ObjectGrants(cat, comp, roles, key)
      && p.store.fields(roles, key) == FieldGrants(cat, comp, roles, key)
  }

  lemma StoreReads(p: Policy, cat: Catalogue, comp: Composition)
    requires p.store == StoreOf(cat, comp)
    ensures ReadsFrom(p, cat, comp)
  {
    hide HasEndpointGrant, ObjectGrants, FieldGrants;
  }

  /** After a run that reports no error, over an unchanged registry, resolving an assembled key raises
      neither an unknown filter nor a filter of the wrong object, for any user: parameters that do not bind
      are the one configuration error left. */
  lemma CleanSyncResolves(before: Catalogue, after: Catalogue, comp: Composition, now: int, p: Policy, user: User,
                          key: string)
    requires CatalogueValid(after) && Linked(comp) && Refers(comp, after)
    requires Synced(before, after, p.reg, now) && Clean(p.reg, after, comp)
    requires ReadsFrom(p, after, comp)
    requires Lookup(p.reg, key).Ok? && Lookup(p.reg, key).value.resource == RPartition(key).objectKey
    ensures ScopeOf(p, user, key).Err? ==> ScopeOf(p, user, key).error.InvalidParams?
  {
    hide Synced, Clean, FiltersDeclared, CatalogueValid, Linked, Refers, CompileGrants, ObjectGrants;
    SyncDeclaresFilters(before, after, p.reg, now);
    if ScopeOf(p, user, key).Err? {
      var spec, roles, gs := Lookup(p.reg, key).value, p.principals(user), GrantsFor(p, user, key);
      assert gs == ObjectGrants(after, comp, roles, key);
      ScopeErrorOrigin(p.reg, spec, p.contextOf(user), gs);
      var g, c :| g in gs && c in g.conditions
        && CompileCondition(p.reg, spec, p.contextOf(user), c) == Err(ScopeOf(p, user, key).error);
      OnlyParamsFail(p.reg, after, comp, spec, roles, key, g, c);
    }
  }

  /** A rule whose filter has left the code is still handed out by the store.  Whether a scope that reads it
      still resolves depends on what is read first: it does exactly when some grant is unconditional and none
      before it is broken. */
  lemma RetiredFilterFails(cat: Catalogue, comp: Composition, p: Policy, user: User, key: string, r: nat, f: nat)
    requires ReadsFrom(p, cat, comp)
    requires Lookup(p.reg, key).Ok? && !Bypasses(p, user) && Reaches(p, user, key)
    requires r in RulesFor(cat, comp, p.principals(user), key)
    requires (r, f) in comp.conditions && f in cat.filters && cat.filters[f].cols.key !in p.reg.conditions
    ensures RuleGrant(cat, comp, key, r) in GrantsFor(p, user, key)
    ensures var spec, gs := Lookup(p.reg, key).value, GrantsFor(p, user, key);
      ScopeOf(p, user, key).Ok? <==> exists i: nat :: Decides(p.reg, spec, gs, i) && gs[i].conditions == []
  {
    var roles, gs, g := p.principals(user), GrantsFor(p, user, key), RuleGrant(cat, comp, key, r);
    assert gs == ObjectGrants(cat, comp, roles, key);
    GrantMembers(cat, comp, roles, key, g);
    var c := ConditionOf(cat, comp, r, f);
    ConditionMembers(cat, comp, r, c);
    assert Fails(p.reg, Lookup(p.reg, key).value, c);
    OutcomeDecided(p.reg, Lookup(p.reg, key).value, p.contextOf(user), gs);
    hide CompileGrants, ObjectGrants, RuleGrant, Fails;
    assert !Undecided(p.reg, Lookup(p.reg, key).value, gs);
  }

  // ----- a retired filter, concretely

  function RetiredCatalogue(): Catalogue {
    Catalogue(
      map[0 := Entry(ObjectCols("w", "W", ""), true, 0)],
      map[1 := Entry(EndpointCols("w.view", "W", []), true, 0)],
      map[2 := Entry(FilterCols(0, "w.gone", "", map[], false), false, 0)],
      map[],
      map[])
  }

  function RetiredComposition(): Composition {
    Composition(
      map["r" := RoleRow("r", "")],
      map["p" := PermissionRow("p", "")],
      {("p", 1)},
      map[3 := RuleRow("p", 0, "view", "", 0)],
      map[(3, 2) := ConditionRow(map[], 0)],
      map[],
      {("r", "p")})
  }

  function RetiredRegistry(): Reg {
    Reg(map["w" := ObjectSpec(None, "W", map[])], map[], map[], map["w.view" := EndpointSpec("w.view", [])], map[],
      map[])
  }

  ghost function RetiredPolicy(): Policy {
    Policy(StoreOf(RetiredCatalogue(), RetiredComposition()), RetiredRegistry(), u => ["r"], false,
      u => Context(u, map[]))
  }

  lemma RetiredWellFormed()
    ensures WellFormed(RetiredCatalogue(), RetiredComposition(), 4)
  {
    RetiredTablesValid();
    RetiredTablesLinked();
    hide CatalogueValid, Linked, Refers;
  }

  lemma RetiredTablesValid()
    ensures CatalogueValid(RetiredCatalogue())
  {
  }

  lemma RetiredTablesLinked()
    ensures Linked(RetiredComposition()) && Refers(RetiredComposition(), RetiredCatalogue())
  {
  }

  lemma RetiredKey()
    ensures RPartition("w.view") == Halves("w", true, "view")
  {
    assert JoinKey("w", "view") == "w.view";
    JoinThenSplit("w", "view");
  }

  lemma RetiredRule()
    ensures RulesFor(RetiredCatalogue(), RetiredComposition(), ["r"], "w.view") == {3}
    ensures HasEndpointGrant(RetiredCatalogue(), RetiredComposition(), ["r"], "w.view")
  {
    RetiredKey();
    hide RPartition;
    var comp := RetiredComposition();
    assert ("r", "p") in comp.bindings && ("r", "p").1 in Held(comp, ["r"]);
    assert ("p", 1) in comp.endpoints;
    assert RuleMatches(RetiredCatalogue(), comp.rules[3], "w.view");
  }

  lemma RetiredLookup()
    ensures Lookup(RetiredRegistry(), "w.view").Ok?
  {
    RetiredKey();
    hide RPartition;
    assert "w.view" in RetiredRegistry().endpoints.Keys;
  }

  lemma RetiredCompiles(spec: KeySpec, ctx: Context, g: ObjectGrant)
    requires g.conditions == [("w.gone", map[])]
    ensures CompileGrants(RetiredRegistry(), spec, ctx, [g]) == Err(UnknownCondition("w.gone"))
  {
    var cs := g.conditions;
    assert cs[..0] == [] && [g][..0] == [];
    assert CompileCondition(RetiredRegistry(), spec, ctx, cs[0]) == Err(UnknownCondition("w.gone"));
    assert CompileGrant(RetiredRegistry(), spec, ctx, cs) == Err(UnknownCondition("w.gone"));
  }

  /** One stored rule on a filter the registry has lost: the store lists it, the scope raises. */
  lemma RetiredFilterRaises(user: User)
    ensures WellFormed(RetiredCatalogue(), RetiredComposition(), 4)
    ensures var g := RuleGrant(RetiredCatalogue(), RetiredComposition(), "w.view", 3);
      GrantsFor(RetiredPolicy(), user, "w.view") == [g] && g.conditions == [("w.gone", map[])]
    ensures ScopeOf(RetiredPolicy(), user, "w.view") == Err(UnknownCondition("w.gone"))
  {
    hide WellFormed, RulesFor, HasEndpointGrant, ObjectGrants, RuleGrant, Lookup, CompileGrants, RetiredRegistry,
      RetiredCatalogue;
    RetiredWellFormed();
    RetiredRule();
    RetiredLookup();
    RetiredGrants("w.view");
    var p, key := RetiredPolicy(), "w.view";
    assert 3 in RetiredComposition().rules;
    hide RetiredComposition;
    RetiredCompiles(Lookup(p.reg, key).value, p.contextOf(user),
      RuleGrant(RetiredCatalogue(), RetiredComposition(), key, 3));
  }

  lemma RetiredGrants(key: string)
    requires RulesFor(RetiredCatalogue(), RetiredComposition(), ["r"], key) == {3}
    ensures var g := RuleGrant(RetiredCatalogue(), RetiredComposition(), key, 3);
      g.conditions == [("w.gone", map[])] && ObjectGrants(RetiredCatalogue(), RetiredComposition(), ["r"], key) == [g]
  {
    var cat, comp := RetiredCatalogue(), RetiredComposition();
    assert (3, 2) in comp.conditions && (3, 2).1 in ConditionFilters(cat, comp, 3);
    assert ConditionFilters(cat, comp, 3) == {2};
    ListedOne(2);
    ListedOne(3);
    assert ConditionsOf(cat, comp, 3) == [ConditionOf(cat, comp, 3, 2)];
    assert ObjectGrants(cat, comp, ["r"], key) == [RuleGrant(cat, comp, key, 3)];
  }
}
